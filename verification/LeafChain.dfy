/** The leaves of one layer: each within its interval, linked in key order, and what a lookup
    through the tree finds in them. */
module LeafChain {
  import opened NodeStore
  import opened LeafNode
  import opened MapOf
  import opened PermList
  import opened TreeSplit

  /** Neighbours in the leaf list are neighbours in key space, and only the first leaf has no
      predecessor. */
  ghost predicate ChainOk<V>(t: Tree<V>, n: Ptr)
    requires Domains(t) && n in t.nodes && t.nodes[n].body.Leaf?
  {
    var b := t.nodes[n].body;
    && (b.next == NULL <==> t.hi[n] == TOP)
    && (b.next != NULL ==>
        b.next in t.nodes && t.nodes[b.next].body.Leaf? && t.lo[b.next] == t.hi[n] && t.nodes[b.next].body.prev == n)
    && (b.prev == NULL <==> t.lo[n] == 0)
    && (b.prev != NULL ==>
        b.prev in t.nodes && t.nodes[b.prev].body.Leaf? && t.hi[b.prev] == t.lo[n] && t.nodes[b.prev].body.next == n)
  }

  ghost predicate LeafAtOk<V>(t: Tree<V>, n: Ptr)
    requires Domains(t) && n in t.nodes && t.nodes[n].body.Leaf?
  {
    LeafOk(t.nodes[n].body, t.lo[n], t.hi[n]) && ChainOk(t, n)
  }

  ghost predicate LeavesOk<V>(t: Tree<V>)
    requires Domains(t)
  {
    forall n {:trigger LeafAtOk(t, n)} :: n in t.nodes && t.nodes[n].body.Leaf? ==> LeafAtOk(t, n)
  }

  /** What the layer holds for `k`: an entry of the one leaf responsible for its slice. */
  ghost function Lookup<V>(t: Tree<V>, k: EntryKey): Option<V>
    requires Inv(t, Done) && LeavesOk(t)
  {
    assert LeafAtOk(t, LeafFor(t, k.ikey));
    Get(Entries(t.nodes[LeafFor(t, k.ikey)].body), k)
  }

  ghost function Lookups<V>(t: Tree<V>): EntryKey -> Option<V>
    requires Inv(t, Done) && LeavesOk(t)
  {
    (k: EntryKey) => Lookup(t, k)
  }

  /** The layer's contents. */
  ghost function ViewOf<V>(t: Tree<V>): imap<EntryKey, V>
    requires Inv(t, Done) && LeavesOk(t)
  {
    AsMap(Lookups(t))
  }

  lemma LookupIn<V>(t: Tree<V>, l: Ptr, k: EntryKey)
    requires Inv(t, Done) && LeavesOk(t) && Contains(t, l, k.ikey) && t.nodes[l].body.Leaf?
    ensures LeafAtOk(t, l) && Lookup(t, k) == Get(Entries(t.nodes[l].body), k)
  {
    LeafForUnique(t, l, k.ikey);
    assert LeafAtOk(t, l);
  }

  lemma SameLeavesOk<V>(t: Tree<V>, t': Tree<V>)
    requires Domains(t) && Domains(t') && SameLeaves(t, t') && LeavesOk(t)
    ensures LeavesOk(t')
  {
    forall n | n in t'.nodes && t'.nodes[n].body.Leaf? ensures LeafAtOk(t', n) {
      assert LeafAtOk(t, n);
    }
  }

  /** Changing internodes only changes no lookup. */
  lemma SameLeavesView<V>(t: Tree<V>, t': Tree<V>)
    requires Inv(t, Done) && Inv(t', Done) && SameLeaves(t, t') && LeavesOk(t) && LeavesOk(t')
    ensures ViewOf(t') == ViewOf(t)
  {
    forall k ensures Lookup(t', k) == Lookup(t, k) {
      var l := LeafFor(t, k.ikey);
      LookupIn(t, l, k);
      LookupIn(t', l, k);
    }
    AsMapSame(Lookups(t), Lookups(t'));
  }

  /** A leaf that stays is a leaf with the same lower bound. */
  ghost predicate BoundsKept<V>(t: Tree<V>, t': Tree<V>)
    requires Domains(t) && Domains(t')
  {
    forall n :: n in t.nodes && t.nodes[n].body.Leaf? && n in t'.nodes ==> t'.nodes[n].body.Leaf? && t'.lo[n] == t.lo[n]
  }

  lemma BoundsKeptTwice<V>(t: Tree<V>, t1: Tree<V>, t': Tree<V>)
    requires Domains(t) && Domains(t1) && Domains(t') && BoundsKept(t, t1) && BoundsKept(t1, t')
    requires t.nodes.Keys <= t1.nodes.Keys || t'.nodes.Keys <= t1.nodes.Keys
    ensures BoundsKept(t, t')
  {
  }

  /** Slot 0 of every leaf but the first keeps the slice it was created with, and no entry of the
      leaf is below it. */
  lemma BoundSlotKept<V>(t: Tree<V>, t': Tree<V>, n: Ptr)
    requires Inv(t, Done) && LeavesOk(t) && Inv(t', Done) && LeavesOk(t') && BoundsKept(t, t')
    requires n in t.nodes && t.nodes[n].body.Leaf? && n in t'.nodes && t.nodes[n].body.prev != NULL
    ensures LeafAtOk(t, n) && t'.nodes[n].body.Leaf? && LeafAtOk(t', n) && t'.nodes[n].body.prev != NULL
    ensures t'.nodes[n].body.slots[0].key.ikey == t.nodes[n].body.slots[0].key.ikey
    ensures forall e :: e in Entries(t'.nodes[n].body) ==> t.nodes[n].body.slots[0].key.ikey <= e.key.ikey
  {
    assert LeafAtOk(t, n) && LeafAtOk(t', n) && NodeOk(t, n);
  }

  // ----- one leaf's contents change -----

  lemma WithBodyBounds<V>(t: Tree<V>, l: Ptr, b: Body<V>)
    requires Domains(t) && l in t.nodes && t.nodes[l].body.Leaf? && b.Leaf?
    ensures Domains(WithBody(t, l, b)) && BoundsKept(t, WithBody(t, l, b))
  {
  }

  ghost function WithBody<V>(t: Tree<V>, l: Ptr, b: Body<V>): (t': Tree<V>)
    requires Domains(t) && l in t.nodes
    ensures Domains(t') && t'.nodes.Keys == t.nodes.Keys
  {
    t.(nodes := t.nodes[l := t.nodes[l].(body := b)])
  }

  lemma WithBodyDown<V>(t: Tree<V>, l: Ptr, b: Body<V>, n: Ptr)
    requires Inv(t, Done) && l in t.nodes && t.nodes[l].body.Leaf? && b.Leaf? && n in t.nodes && t.nodes[n].body.Inner?
    ensures DownOk(WithBody(t, l, b), Done, n)
  {
    assert DownOk(t, Done, n);
    KeepDown(t, Done, WithBody(t, l, b), Done, n);
  }

  lemma WithBodyLeaves<V>(t: Tree<V>, l: Ptr, b: Body<V>)
    requires Domains(t) && LeavesOk(t) && l in t.nodes && t.nodes[l].body.Leaf?
    requires LeafOk(b, t.lo[l], t.hi[l]) && b.next == t.nodes[l].body.next && b.prev == t.nodes[l].body.prev
    ensures LeavesOk(WithBody(t, l, b))
  {
    var t' := WithBody(t, l, b);
    forall n | n in t'.nodes && t'.nodes[n].body.Leaf? ensures LeafAtOk(t', n) {
      assert LeafAtOk(t, n);
    }
  }

  lemma WithBodyInv<V>(t: Tree<V>, l: Ptr, b: Body<V>)
    requires Inv(t, Done) && l in t.nodes && t.nodes[l].body.Leaf? && b.Leaf?
    ensures Inv(WithBody(t, l, b), Done)
  {
    var t' := WithBody(t, l, b);
    forall n | n in t'.nodes ensures NodeOk(t', n) && UpOk(t', Done, n) {
      assert NodeOk(t, n) && UpOk(t, Done, n);
    }
    forall n | n in t'.nodes && t'.nodes[n].body.Inner? ensures DownOk(t', Done, n) {
      WithBodyDown(t, l, b, n);
    }
  }

  lemma WithBodyLookup<V>(t: Tree<V>, l: Ptr, b: Body<V>, k: EntryKey, v: Option<V>, j: EntryKey)
    requires Inv(t, Done) && LeavesOk(t) && l == LeafFor(t, k.ikey) && Stores(t.nodes[l].body, b, k, v)
    requires Inv(WithBody(t, l, b), Done) && LeavesOk(WithBody(t, l, b))
    ensures Lookup(WithBody(t, l, b), j) == if j == k then v else Lookup(t, j)
  {
    var m := LeafFor(t, j.ikey);
    LookupIn(t, m, j);
    LookupIn(WithBody(t, l, b), m, j);
  }

  /** Storing in the responsible leaf stores in the layer. */
  lemma WithBodyStores<V>(t: Tree<V>, l: Ptr, b: Body<V>, k: EntryKey, v: Option<V>)
    requires Inv(t, Done) && LeavesOk(t) && l == LeafFor(t, k.ikey)
    requires LeafOk(b, t.lo[l], t.hi[l]) && Stores(t.nodes[l].body, b, k, v)
    ensures Inv(WithBody(t, l, b), Done) && LeavesOk(WithBody(t, l, b))
    ensures ViewOf(WithBody(t, l, b)) == if v.Some? then ViewOf(t)[k := v.value] else ViewOf(t) - {k}
  {
    WithBodyInv(t, l, b);
    WithBodyLeaves(t, l, b);
    forall j ensures Lookup(WithBody(t, l, b), j) == if j == k then v else Lookup(t, j) {
      WithBodyLookup(t, l, b, k, v, j);
    }
    AsMapStored(Lookups(t), Lookups(WithBody(t, l, b)), k, v);
  }

  /** A store over the payload of an entry that is there. */
  lemma StoreOver<V>(t: Tree<V>, l: Ptr, i: nat, k: EntryKey, v: V, b': Body<V>)
    requires Inv(t, Done) && LeavesOk(t) && l == LeafFor(t, k.ikey)
    requires LeafAtOk(t, l) && i < t.nodes[l].body.size && t.nodes[l].body.slots[t.nodes[l].body.perm[i]].key == k
    requires var b := t.nodes[l].body; b' == b.(slots := b.slots[b.perm[i] := Slot(k, Some(v))])
    ensures Inv(WithBody(t, l, b'), Done) && LeavesOk(WithBody(t, l, b'))
    ensures ViewOf(WithBody(t, l, b')) == ViewOf(t)[k := v]
  {
    ReplaceOk(t.nodes[l].body, t.lo[l], t.hi[l], i, k, v);
    WithBodyStores(t, l, b', k, Some(v));
  }

  /** Leaf `l` is ready for a new entry `k` at position `i`: it is the responsible one, and the free
      slot at the back is not slot 0 with a lower bound in it, unless `k` has the bound's slice. */
  ghost predicate Taker<V>(t: Tree<V>, l: Ptr, i: nat, k: EntryKey) {
    && Inv(t, Done) && LeavesOk(t) && l == LeafFor(t, k.ikey)
    && LeafAtOk(t, l) && t.nodes[l].body.size < WIDTH && i == LowerPos(Entries(t.nodes[l].body), k)
    && var b := t.nodes[l].body; b.perm[WIDTH - 1] == 0 ==> b.prev == NULL || b.slots[0].key.ikey == k.ikey
  }

  /** An entry put into the free slot at the back of the responsible leaf. */
  lemma StoreNew<V>(t: Tree<V>, l: Ptr, i: nat, k: EntryKey, v: V, b': Body<V>)
    requires Inv(t, Done) && LeavesOk(t) && l == LeafFor(t, k.ikey) && k.len <= 9 && k !in ViewOf(t)
    requires Taker(t, l, i, k)
    requires b' == Finished(t.nodes[l].body, i, k, v)
    ensures Inv(WithBody(t, l, b'), Done) && LeavesOk(WithBody(t, l, b'))
    ensures ViewOf(WithBody(t, l, b')) == ViewOf(t)[k := v]
  {
    LookupIn(t, l, k);
    FinishOk(t.nodes[l].body, t.lo[l], t.hi[l], i, k, v);
    WithBodyStores(t, l, b', k, Some(v));
  }

  /** Exchanging free slots changes nothing. */
  lemma SwapFree<V>(t: Tree<V>, l: Ptr, b': Body<V>)
    requires Inv(t, Done) && LeavesOk(t) && l in t.nodes && t.nodes[l].body.Leaf? && LeafAtOk(t, l)
    requires t.nodes[l].body.size < WIDTH
    requires var b := t.nodes[l].body; b' == b.(perm := Exchange(b.perm, b.size, WIDTH - 1))
    ensures LeafWf(b') && Entries(b') == Entries(t.nodes[l].body)
    ensures Inv(WithBody(t, l, b'), Done) && LeavesOk(WithBody(t, l, b')) && LeafAtOk(WithBody(t, l, b'), l)
    ensures ViewOf(WithBody(t, l, b')) == ViewOf(t)
  {
    var b, t' := t.nodes[l].body, WithBody(t, l, b');
    ExchangePerm(b.perm, WIDTH, b.size, WIDTH - 1);
    assert Entries(b') == Entries(b);
    WithBodyInv(t, l, b');
    WithBodyLeaves(t, l, b');
    assert LeafAtOk(t', l);
    forall k ensures Lookup(t', k) == Lookup(t, k) {
      var m := LeafFor(t, k.ikey);
      LookupIn(t, m, k);
      LookupIn(t', m, k);
    }
    AsMapSame(Lookups(t), Lookups(t'));
  }

  // ----- a leaf splits -----

  /** `c` takes the upper part of leaf `l`, from slice `x` on, and follows it in the leaf list
      (btree_leaflink.hh, `link_split`). */
  ghost function LeafSplit<V>(t: Tree<V>, l: Ptr, c: Ptr, x: Ikey, bl: Body<V>, br: Body<V>): (t': Tree<V>)
    requires Domains(t) && l in t.nodes && t.nodes[l].body.Leaf? && c != NULL && bl.Leaf? && br.Leaf?
    requires var nx := t.nodes[l].body.next; nx != NULL ==> nx in t.nodes && t.nodes[nx].body.Leaf?
    ensures Domains(t') && t'.nodes.Keys == t.nodes.Keys + {c}
  {
    var nx := t.nodes[l].body.next;
    var nodes := t.nodes[l := t.nodes[l].(body := bl.(next := c))]
                        [c := Node(NULL, t.nodes[l].root, br.(next := nx, prev := l))];
    Tree(if nx == NULL then nodes else nodes[nx := t.nodes[nx].(body := t.nodes[nx].body.(prev := c))],
         t.lo[c := x], t.hi[c := t.hi[l]][l := x], t.root)
  }

  ghost predicate SplitReady<V>(t: Tree<V>, l: Ptr, c: Ptr, x: Ikey, bl: Body<V>, br: Body<V>) {
    && Inv(t, Done) && LeavesOk(t) && l in t.nodes && t.nodes[l].body.Leaf? && c !in t.nodes && c != NULL
    && t.lo[l] < x < t.hi[l]
    && LeafOk(bl, t.lo[l], x) && LeafOk(br, x, t.hi[l]) && bl.prev == t.nodes[l].body.prev
    && (var nx := t.nodes[l].body.next; nx != NULL ==> nx in t.nodes && t.nodes[nx].body.Leaf? && nx != l)
  }

  lemma LeafSplitDown<V>(t: Tree<V>, l: Ptr, c: Ptr, x: Ikey, bl: Body<V>, br: Body<V>, n: Ptr)
    requires SplitReady(t, l, c, x, bl, br) && n in t.nodes && t.nodes[n].body.Inner?
    ensures PendOk(LeafSplit(t, l, c, x, bl, br), Split(l, c))
    ensures DownOk(LeafSplit(t, l, c, x, bl, br), Split(l, c), n)
  {
    hide LeafOk, LeavesOk, NodeOk;
    LeafIsBody(bl, t.lo[l], x);
    LeafIsBody(br, x, t.hi[l]);
    assert DownOk(t, Done, n);
    assert UpOk(t, Done, t.root);
    KeepDown(t, Done, LeafSplit(t, l, c, x, bl, br), Split(l, c), n);
  }

  lemma LeafSplitUp<V>(t: Tree<V>, l: Ptr, c: Ptr, x: Ikey, bl: Body<V>, br: Body<V>, n: Ptr)
    requires SplitReady(t, l, c, x, bl, br) && n in t.nodes
    ensures PendOk(LeafSplit(t, l, c, x, bl, br), Split(l, c))
    ensures UpOk(LeafSplit(t, l, c, x, bl, br), Split(l, c), n)
  {
    assert UpOk(t, Done, n) && UpOk(t, Done, t.root);
  }

  lemma LeafSplitNode<V>(t: Tree<V>, l: Ptr, c: Ptr, x: Ikey, bl: Body<V>, br: Body<V>, n: Ptr)
    requires SplitReady(t, l, c, x, bl, br) && n in LeafSplit(t, l, c, x, bl, br).nodes
    ensures NodeOk(LeafSplit(t, l, c, x, bl, br), n)
  {
    assert NodeOk(t, if n == c then l else n);
  }

  lemma LeafSplitInv<V>(t: Tree<V>, l: Ptr, c: Ptr, x: Ikey, bl: Body<V>, br: Body<V>)
    requires SplitReady(t, l, c, x, bl, br)
    ensures Inv(LeafSplit(t, l, c, x, bl, br), Split(l, c))
  {
    hide NodeOk, UpOk, DownOk, PendOk;
    var t', p := LeafSplit(t, l, c, x, bl, br), Split(l, c);
    LeafSplitUp(t, l, c, x, bl, br, l);
    forall n | n in t'.nodes ensures NodeOk(t', n) {
      LeafSplitNode(t, l, c, x, bl, br, n);
    }
    forall n | n in t'.nodes && n != c ensures UpOk(t', p, n) {
      LeafSplitUp(t, l, c, x, bl, br, n);
    }
    forall n | n in t'.nodes && t'.nodes[n].body.Inner? ensures DownOk(t', p, n) {
      LeafSplitDown(t, l, c, x, bl, br, n);
    }
  }

  lemma LeafSplitLeaf<V>(t: Tree<V>, l: Ptr, c: Ptr, x: Ikey, bl: Body<V>, br: Body<V>, n: Ptr)
    requires SplitReady(t, l, c, x, bl, br)
    requires n in LeafSplit(t, l, c, x, bl, br).nodes && LeafSplit(t, l, c, x, bl, br).nodes[n].body.Leaf?
    ensures var t' := LeafSplit(t, l, c, x, bl, br); LeafOk(t'.nodes[n].body, t'.lo[n], t'.hi[n])
  {
    hide UpOk, DownOk, ChildOk, LeafOk, ChainOk;
    LeafIsBody(bl, t.lo[l], x);
    LeafIsBody(br, x, t.hi[l]);
    assert LeafAtOk(t, l);
    Relinked(bl, t.lo[l], x, c, bl.prev);
    Relinked(br, x, t.hi[l], t.nodes[l].body.next, l);
    if n != c {
      assert LeafAtOk(t, n);
      Relinked(t.nodes[n].body, t.lo[n], t.hi[n], t.nodes[n].body.next, c);
    }
  }

  lemma ChainsAt<V>(t: Tree<V>, l: Ptr, n: Ptr)
    requires Inv(t, Done) && LeavesOk(t) && l in t.nodes && t.nodes[l].body.Leaf?
    ensures ChainOk(t, l) && 0 <= t.lo[l] < t.hi[l] <= TOP && NULL !in t.nodes
    ensures n in t.nodes && t.nodes[n].body.Leaf? ==> ChainOk(t, n)
  {
    assert LeafAtOk(t, l) && NodeOk(t, l);
    if n in t.nodes && t.nodes[n].body.Leaf? { assert LeafAtOk(t, n); }
    hide ChainOk, LeafOk;
  }

  lemma LeafSplitChain<V>(t: Tree<V>, l: Ptr, c: Ptr, x: Ikey, bl: Body<V>, br: Body<V>, n: Ptr)
    requires SplitReady(t, l, c, x, bl, br)
    requires n in LeafSplit(t, l, c, x, bl, br).nodes && LeafSplit(t, l, c, x, bl, br).nodes[n].body.Leaf?
    ensures ChainOk(LeafSplit(t, l, c, x, bl, br), n)
  {
    hide UpOk, DownOk, ChildOk, LeafOk;
    LeafIsBody(bl, t.lo[l], x);
    LeafIsBody(br, x, t.hi[l]);
    ChainsAt(t, l, n);
    hide Inv, LeavesOk, NodeOk, LeafAtOk;
  }

  lemma LeafIsBody<V>(b: Body<V>, lo: int, hi: int)
    requires LeafOk(b, lo, hi)
    ensures b.Leaf?
  {
  }

  /** The links of a leaf have nothing to do with its entries. */
  lemma Relinked<V>(b: Body<V>, lo: int, hi: int, next: Ptr, prev: Ptr)
    requires b.Leaf? && LeafOk(b, lo, hi)
    ensures LeafOk(b.(next := next, prev := prev), lo, hi) && LeafOk(b.(next := next), lo, hi)
    ensures LeafOk(b.(prev := prev), lo, hi)
  {
    assert Entries(b.(next := next, prev := prev)) == Entries(b);
    assert Entries(b.(next := next)) == Entries(b) && Entries(b.(prev := prev)) == Entries(b);
  }

  lemma LeafSplitLeaves<V>(t: Tree<V>, l: Ptr, c: Ptr, x: Ikey, bl: Body<V>, br: Body<V>)
    requires SplitReady(t, l, c, x, bl, br)
    ensures LeavesOk(LeafSplit(t, l, c, x, bl, br))
  {
    hide NodeOk, UpOk, DownOk, IsPerm, Ordered, Within, ChainOk;
    var t' := LeafSplit(t, l, c, x, bl, br);
    forall n | n in t'.nodes && t'.nodes[n].body.Leaf? ensures LeafAtOk(t', n) {
      LeafSplitLeaf(t, l, c, x, bl, br, n);
      LeafSplitChain(t, l, c, x, bl, br, n);
    }
  }

  /** The split tree, once its internodes are in order again, finds what the old tree found. */
  lemma LeafSplitLookup<V>(t: Tree<V>, l: Ptr, c: Ptr, x: Ikey, bl: Body<V>, br: Body<V>, t': Tree<V>, k: EntryKey)
    requires SplitReady(t, l, c, x, bl, br) && LeafAtOk(t, l)
    requires Get(Entries(t.nodes[l].body), k) == if k.ikey < x then Get(Entries(bl), k) else Get(Entries(br), k)
    requires Inv(t', Done) && SameLeaves(LeafSplit(t, l, c, x, bl, br), t') && LeavesOk(t')
    ensures Lookup(t', k) == Lookup(t, k)
  {
    hide Get, Entries, Lookup, ChainOk, LeafOk, LeavesOk;
    var m := LeafFor(t, k.ikey);
    LookupIn(t, m, k);
    LeafSplitHalf(t, l, c, x, bl, br, t', k.ikey);
    LookupIn(t', if m == l && x <= k.ikey then c else m, k);
    hide Inv, LeafAtOk;
  }

  /** After the split the leaf responsible for a slice is the old one, or the new one in its place. */
  lemma LeafSplitHalf<V>(t: Tree<V>, l: Ptr, c: Ptr, x: Ikey, bl: Body<V>, br: Body<V>, t': Tree<V>, k: Ikey)
    requires SplitReady(t, l, c, x, bl, br) && Inv(t', Done) && SameLeaves(LeafSplit(t, l, c, x, bl, br), t')
    ensures var m := LeafFor(t, k);
      var m' := if m == l && x <= k then c else m;
      && Contains(t', m', k) && t'.nodes[m'].body.Leaf? && LeafWf(t'.nodes[m'].body) && LeafWf(t.nodes[m].body)
      && Entries(t'.nodes[m'].body)
        == if m != l then Entries(t.nodes[m].body) else if x <= k then Entries(br) else Entries(bl)
  {
    hide Inv, SameLeaves, LeafSplit, LeafAtOk, Active, IsPerm;
    var m := LeafFor(t, k);
    if m == l { SplitBodies(t, l, c, x, bl, br, t', k); } else { OtherBody(t, l, c, x, bl, br, t', m); }
    OldLeaf(t, l, c, x, bl, br, m);
  }

  lemma OldLeaf<V>(t: Tree<V>, l: Ptr, c: Ptr, x: Ikey, bl: Body<V>, br: Body<V>, m: Ptr)
    requires SplitReady(t, l, c, x, bl, br) && m in t.nodes && t.nodes[m].body.Leaf?
    ensures LeafWf(t.nodes[m].body) && Domains(t)
  {
    assert LeafAtOk(t, m);
  }

  lemma OtherBody<V>(t: Tree<V>, l: Ptr, c: Ptr, x: Ikey, bl: Body<V>, br: Body<V>, t': Tree<V>, m: Ptr)
    requires SplitReady(t, l, c, x, bl, br) && Inv(t', Done) && SameLeaves(LeafSplit(t, l, c, x, bl, br), t')
    requires m in t.nodes && t.nodes[m].body.Leaf? && m != l
    ensures Domains(t) && m in t'.nodes && t'.lo[m] == t.lo[m] && t'.hi[m] == t.hi[m]
    ensures var b, b' := t.nodes[m].body, t'.nodes[m].body;
      b'.Leaf? && b'.slots == b.slots && b'.perm == b.perm && b'.size == b.size
  {
    hide DownOk, UpOk, NodeOk, LeafAtOk, LeafOk;
  }

  lemma LeafSplitView<V>(t: Tree<V>, l: Ptr, c: Ptr, x: Ikey, bl: Body<V>, br: Body<V>, t': Tree<V>)
    requires SplitReady(t, l, c, x, bl, br) && LeafAtOk(t, l)
    requires forall k ::
      Get(Entries(t.nodes[l].body), k) == if k.ikey < x then Get(Entries(bl), k) else Get(Entries(br), k)
    requires Inv(t', Done) && SameLeaves(LeafSplit(t, l, c, x, bl, br), t') && LeavesOk(t')
    ensures ViewOf(t') == ViewOf(t)
  {
    forall k ensures Lookup(t', k) == Lookup(t, k) {
      LeafSplitLookup(t, l, c, x, bl, br, t', k);
    }
    AsMapSame(Lookups(t), Lookups(t'));
  }

  /** The leaf that takes the new entry, after the split. */
  lemma TakingLeaf<V>(t: Tree<V>, l: Ptr, c: Ptr, x: Ikey, bl: Body<V>, br: Body<V>, t': Tree<V>, i: nat, k: EntryKey)
    requires SplitReady(t, l, c, x, bl, br) && Contains(t, l, k.ikey) && LeafAtOk(t, l)
    requires LeftTakes(bl, t.lo[l], x, i, k) || RightTakes(bl, br, x, i, k)
    requires Inv(t', Done) && SameLeaves(LeafSplit(t, l, c, x, bl, br), t') && LeavesOk(t')
    ensures if k.ikey < x then Taker(t', l, i, k) else Taker(t', c, i - bl.size, k)
  {
    hide Inv, LeavesOk, LeafAtOk, LeafSplit, SplitReady, SameLeaves, ChainOk, LeafOk, Lookup;
    SplitBodies(t, l, c, x, bl, br, t', k.ikey);
    HalvesWf(t, l, c, x, bl, br);
    var n := if k.ikey < x then l else c;
    LookupIn(t', n, k);
    LeafForUnique(t', n, k.ikey);
    LeafIsWf(t', n);
  }

  lemma LeafIsWf<V>(t: Tree<V>, n: Ptr)
    requires Inv(t, Done) && n in t.nodes && t.nodes[n].body.Leaf? && LeafAtOk(t, n)
    ensures LeafWf(t.nodes[n].body)
  {
  }

  lemma SplitBodies<V>(t: Tree<V>, l: Ptr, c: Ptr, x: Ikey, bl: Body<V>, br: Body<V>, t': Tree<V>, k: Ikey)
    requires SplitReady(t, l, c, x, bl, br) && Contains(t, l, k)
    requires Inv(t', Done) && SameLeaves(LeafSplit(t, l, c, x, bl, br), t')
    ensures Contains(t', if k < x then l else c, k)
    ensures t'.nodes[if k < x then l else c].body
      == if k < x then bl.(next := c) else br.(next := t.nodes[l].body.next, prev := l)
  {
    hide LeafOk, LeavesOk, NodeOk, UpOk, DownOk;
  }

  lemma HalvesWf<V>(t: Tree<V>, l: Ptr, c: Ptr, x: Ikey, bl: Body<V>, br: Body<V>)
    requires SplitReady(t, l, c, x, bl, br)
    ensures LeafWf(bl) && LeafWf(br) && (t.lo[l] == 0 ==> bl.prev == NULL) && c != NULL && 0 <= t.lo[l] < x && l != NULL
    ensures br.slots[0].key.ikey == x && (t.lo[l] > 0 ==> bl.slots[0].key.ikey == t.lo[l])
  {
    assert NodeOk(t, l) && LeafAtOk(t, l);
  }

  /** What a leaf to be split is known to satisfy. */
  lemma MustSplit<V>(t: Tree<V>, l: Ptr, k: EntryKey)
    requires Inv(t, Done) && LeavesOk(t) && l == LeafFor(t, k.ikey) && k !in ViewOf(t)
    ensures l in t.nodes && Domains(t) && LeafAtOk(t, l) && t.lo[l] <= k.ikey < t.hi[l]
    ensures Get(Entries(t.nodes[l].body), k) == None
  {
    LookupIn(t, l, k);
  }

  lemma CanSplit<V>(t: Tree<V>, l: Ptr, c: Ptr, x: Ikey, bl: Body<V>, br: Body<V>)
    requires Inv(t, Done) && LeavesOk(t) && l in t.nodes && t.nodes[l].body.Leaf? && LeafAtOk(t, l)
    requires c !in t.nodes && c != NULL
    requires Halves(t.nodes[l].body, t.lo[l], x, t.hi[l], bl, br) && bl.prev == t.nodes[l].body.prev
    ensures SplitReady(t, l, c, x, bl, br) && bl.Leaf? && br.Leaf?
    ensures forall k ::
      Get(Entries(t.nodes[l].body), k) == if k.ikey < x then Get(Entries(bl), k) else Get(Entries(br), k)
  {
    assert NodeOk(t, l);
  }

  lemma SplitBounds<V>(t: Tree<V>, l: Ptr, c: Ptr, x: Ikey, bl: Body<V>, br: Body<V>, t1: Tree<V>, t': Tree<V>)
    requires SplitReady(t, l, c, x, bl, br) && t1 == LeafSplit(t, l, c, x, bl, br) && Domains(t') && SameLeaves(t1, t')
    ensures BoundsKept(t, t')
  {
    hide Inv, LeavesOk;
  }

  /** Once the right leaf is listed in the tree, the layer is in order and holds what it held. */
  lemma AfterSplit<V>(t: Tree<V>, l: Ptr, c: Ptr, x: Ikey, bl: Body<V>, br: Body<V>, t1: Tree<V>, t': Tree<V>, i: nat,
      k: EntryKey)
    requires SplitReady(t, l, c, x, bl, br) && Contains(t, l, k.ikey) && LeafAtOk(t, l)
    requires forall j ::
      Get(Entries(t.nodes[l].body), j) == if j.ikey < x then Get(Entries(bl), j) else Get(Entries(br), j)
    requires LeftTakes(bl, t.lo[l], x, i, k) || RightTakes(bl, br, x, i, k)
    requires t1 == LeafSplit(t, l, c, x, bl, br) && LeavesOk(t1) && Inv(t', Done) && SameLeaves(t1, t')
    ensures LeavesOk(t') && ViewOf(t') == ViewOf(t) && BoundsKept(t, t')
    ensures if k.ikey < x then Taker(t', l, i, k) else Taker(t', c, i - bl.size, k)
  {
    SplitBounds(t, l, c, x, bl, br, t1, t');
    hide LeafSplit, Taker, SameLeaves, BoundsKept;
    SameLeavesOk(t1, t');
    LeafSplitView(t, l, c, x, bl, br, t');
    TakingLeaf(t, l, c, x, bl, br, t', i, k);
  }

  // ----- an entry goes -----

  lemma EraseOk<V>(b: Body<V>, lo: int, hi: int, i: nat, k: EntryKey)
    requires LeafOk(b, lo, hi) && i < b.size && b.slots[b.perm[i]].key == k
    ensures var b' := b.(perm := RemoveAt(b.perm, b.size, i), size := b.size - 1);
      LeafOk(b', lo, hi) && Stores(b, b', k, None)
  {
    var s, b' := Entries(b), b.(perm := RemoveAt(b.perm, b.size, i), size := b.size - 1);
    RemoveAtPerm(b.perm, WIDTH, b.size, i);
    assert Entries(b') == s[..i] + s[i + 1..] && s[i].key == k;
    forall j ensures Ordered(Entries(b')) && Get(Entries(b'), j) == if j == k then None else Get(s, j) {
      RemovedGet(s, i, j);
    }
  }

  lemma EraseEntry<V>(t: Tree<V>, l: Ptr, i: nat, k: EntryKey, b': Body<V>)
    requires Inv(t, Done) && LeavesOk(t) && l == LeafFor(t, k.ikey)
    requires LeafAtOk(t, l) && i < t.nodes[l].body.size && t.nodes[l].body.slots[t.nodes[l].body.perm[i]].key == k
    requires var b := t.nodes[l].body; b' == b.(perm := RemoveAt(b.perm, b.size, i), size := b.size - 1)
    ensures Inv(WithBody(t, l, b'), Done) && LeavesOk(WithBody(t, l, b'))
    ensures ViewOf(WithBody(t, l, b')) == ViewOf(t) - {k}
  {
    EraseOk(t.nodes[l].body, t.lo[l], t.hi[l], i, k);
    WithBodyStores(t, l, b', k, None);
  }

  /** A leaf without neighbours is the only one. */
  lemma OnlyLeaf<V>(t: Tree<V>, l: Ptr)
    requires Inv(t, Done) && LeavesOk(t) && l in t.nodes && t.nodes[l].body.Leaf?
    requires t.nodes[l].body.prev == NULL && t.nodes[l].body.next == NULL && t.nodes[l].body.size == 0
    ensures ViewOf(t) == imap[]
  {
    assert LeafAtOk(t, l);
    forall k: EntryKey ensures Lookup(t, k) == None {
      LookupIn(t, l, k);
    }
  }

  // ----- a layer of one leaf -----

  ghost function OneLeaf<V>(b: Body<V>): Tree<V> {
    Tree(map[1 := Node(NULL, true, b)], map[1 := 0], map[1 := TOP], 1)
  }

  /** A layer of one leaf holds that leaf's entries (`leaf::make_root`). */
  lemma OneLeafOk<V>(b: Body<V>)
    requires LeafOk(b, 0, TOP) && b.next == NULL && b.prev == NULL
    ensures Inv(OneLeaf(b), Done) && LeavesOk(OneLeaf(b))
    ensures forall k :: Lookup(OneLeaf(b), k) == Get(Entries(b), k)
  {
    var t := OneLeaf(b);
    assert NodeOk(t, 1) && UpOk(t, Done, 1);
    assert LeafAtOk(t, 1);
    forall k ensures Lookup(t, k) == Get(Entries(b), k) {
      LookupIn(t, 1, k);
    }
  }

  lemma OneEntry<V>(e: Slot<V>, k: EntryKey)
    ensures Ordered([e]) && Get([e], k) == if k == e.key then e.val else None
  {
    if k == e.key { GetAt([e], 0); } else { GetNone([e], k); }
  }

  lemma TwoEntries<V>(e: Slot<V>, f: Slot<V>, k: EntryKey)
    requires Less(e.key, f.key)
    ensures Ordered([e, f]) && Get([e, f], k) == if k == e.key then e.val else if k == f.key then f.val else None
  {
    if k == e.key { GetAt([e, f], 0); } else if k == f.key { GetAt([e, f], 1); } else { GetNone([e, f], k); }
  }

  /** One leaf with the entries `s` in its first slots. */
  lemma OneLeafView<V>(b: Body<V>, m: imap<EntryKey, V>)
    requires LeafWf(b) && b.next == NULL && b.prev == NULL
    requires Ordered(Entries(b)) && Within(Entries(b), 0, TOP)
    requires forall k :: Get(Entries(b), k) == if k in m then Some(m[k]) else None
    ensures Inv(OneLeaf(b), Done) && LeavesOk(OneLeaf(b)) && ViewOf(OneLeaf(b)) == m
  {
    OneLeafOk(b);
    assert ViewOf(OneLeaf(b)) == m;
  }

  lemma TwoSlotsView<V>(b: Body<V>, e: Slot<V>, f: Slot<V>)
    requires LeafWf(b) && b.next == NULL && b.prev == NULL && b.size == 2 && Entries(b) == [e, f]
    requires Less(e.key, f.key) && e.key.len <= 9 && f.key.len <= 9 && e.val.Some? && f.val.Some?
    ensures Inv(OneLeaf(b), Done) && LeavesOk(OneLeaf(b))
    ensures ViewOf(OneLeaf(b)) == imap[e.key := e.val.value, f.key := f.val.value]
  {
    forall j
      ensures Ordered([e, f])
      ensures Get([e, f], j) == if j == e.key then e.val else if j == f.key then f.val else None
    {
      TwoEntries(e, f, j);
    }
    OneLeafView(b, imap[e.key := e.val.value, f.key := f.val.value]);
  }
}
