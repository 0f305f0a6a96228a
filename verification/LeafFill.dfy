/** Empty leaves (masstree_remove.hh:161-255): a leaf that loses its last entry is taken out of the tree,
    unless it is the first of its layer. So only the first leaf of a layer can be empty. */
module LeafFill {
  import opened NodeStore
  import opened LeafNode
  import opened LeafChain
  import opened LeafRemove
  import opened TreeRemove
  import opened TreeSplit

  /** A leaf with a predecessor has an entry. */
  ghost predicate Filled<V>(t: Tree<V>, n: Ptr)
    requires n in t.nodes && t.nodes[n].body.Leaf?
  {
    t.nodes[n].body.prev != NULL ==> 0 < t.nodes[n].body.size
  }

  /** Every leaf but `e` is filled. */
  ghost predicate FilledBut<V>(t: Tree<V>, e: Ptr) {
    forall n {:trigger Filled(t, n)} :: n in t.nodes && t.nodes[n].body.Leaf? && n != e ==> Filled(t, n)
  }

  ghost predicate AllFilled<V>(t: Tree<V>) {
    forall n {:trigger Filled(t, n)} :: n in t.nodes && t.nodes[n].body.Leaf? ==> Filled(t, n)
  }

  // ----- what each operation does to this -----

  lemma FilledAnd<V>(t: Tree<V>, l: Ptr)
    requires l in t.nodes && t.nodes[l].body.Leaf?
    ensures AllFilled(t) <==> FilledBut(t, l) && Filled(t, l)
  {
  }

  lemma WithBodyFilled<V>(t: Tree<V>, l: Ptr, b: Body<V>)
    requires Domains(t) && l in t.nodes && t.nodes[l].body.Leaf? && b.Leaf? && FilledBut(t, l)
    ensures FilledBut(WithBody(t, l, b), l) && (0 < b.size || b.prev == NULL ==> AllFilled(WithBody(t, l, b)))
  {
    var t' := WithBody(t, l, b);
    forall n | n in t'.nodes && t'.nodes[n].body.Leaf? && n != l ensures Filled(t', n) {
      assert Filled(t, n);
    }
  }

  lemma SameLeavesFilled<V>(t: Tree<V>, t': Tree<V>, e: Ptr)
    requires Domains(t) && Domains(t') && SameLeaves(t, t')
    ensures (FilledBut(t, e) ==> FilledBut(t', e)) && (AllFilled(t) ==> AllFilled(t'))
  {
    forall n | n in t'.nodes && t'.nodes[n].body.Leaf? ensures Filled(t, n) ==> Filled(t', n) {
    }
  }

  /** After a split one half may be empty, the one that takes the new entry. */
  lemma SplitFilled<V>(t: Tree<V>, l: Ptr, c: Ptr, x: Ikey, bl: Body<V>, br: Body<V>, n: Ptr)
    requires SplitReady(t, l, c, x, bl, br) && AllFilled(t) && bl.Leaf? && br.Leaf?
    requires (n == l && 0 < br.size) || (n == c && 0 < bl.size)
    ensures FilledBut(LeafSplit(t, l, c, x, bl, br), n)
  {
    var t' := LeafSplit(t, l, c, x, bl, br);
    hide Inv, LeavesOk, LeafOk;
    forall m | m in t'.nodes && t'.nodes[m].body.Leaf? && m != n ensures Filled(t', m) {
      if m != c {
        assert Filled(t, m);
        if m == t.nodes[l].body.next { NextIsFilled(t, l); }
      }
    }
  }

  lemma AfterSplitFilled<V>(t: Tree<V>, l: Ptr, c: Ptr, x: Ikey, bl: Body<V>, br: Body<V>, t': Tree<V>, n: Ptr)
    requires SplitReady(t, l, c, x, bl, br) && AllFilled(t) && Inv(t', Done)
    requires bl.Leaf? && br.Leaf? && SameLeaves(LeafSplit(t, l, c, x, bl, br), t')
    requires (n == l && 0 < br.size) || (n == c && 0 < bl.size)
    ensures FilledBut(t', n)
  {
    SplitFilled(t, l, c, x, bl, br, n);
    hide LeafSplit, LeavesOk, LeafOk, AllFilled, FilledBut;
    SameLeavesFilled(LeafSplit(t, l, c, x, bl, br), t', n);
  }

  lemma NextIsFilled<V>(t: Tree<V>, l: Ptr)
    requires Inv(t, Done) && LeavesOk(t) && l in t.nodes && t.nodes[l].body.Leaf? && t.nodes[l].body.next != NULL
    ensures var nx := t.nodes[l].body.next; nx in t.nodes && t.nodes[nx].body.Leaf? && t.nodes[nx].body.prev == l
    ensures l != NULL
  {
    assert LeafAtOk(t, l);
  }

  /** The removal of the one empty leaf. */
  lemma RemovedFilled<V>(t: Tree<V>, l: Ptr, t': Tree<V>)
    requires Removable(t, l) && FilledBut(t, l) && Domains(t') && l !in t'.nodes
    requires LeavesLeft(Unlinked(t, l), t', l, t.lo[l], t.hi[l])
    ensures AllFilled(t')
  {
    forall n | n in t'.nodes && t'.nodes[n].body.Leaf? ensures Filled(t', n) {
      assert Filled(t, n) && LeafAtOk(t, n) && LeafAtOk(t, l);
      LeafAfter(t, l, t', n);
    }
  }

  /** Every leaf but `l` stays. */
  ghost predicate StayBut<V>(t: Tree<V>, t': Tree<V>, l: Ptr) {
    forall n :: n in t.nodes && t.nodes[n].body.Leaf? && n != l ==> n in t'.nodes && t'.nodes[n].body.Leaf?
  }

  lemma RemovedStay<V>(t: Tree<V>, l: Ptr, t': Tree<V>)
    requires Removable(t, l) && Domains(t') && l !in t'.nodes
    requires LeavesLeft(Unlinked(t, l), t', l, t.lo[l], t.hi[l])
    ensures StayBut(t, t', l)
  {
    forall n | n in t.nodes && t.nodes[n].body.Leaf? && n != l ensures n in t'.nodes && t'.nodes[n].body.Leaf? {
      LeafAfter(t, l, t', n);
    }
  }

  lemma WithBodyStay<V>(t: Tree<V>, l: Ptr, b: Body<V>)
    requires Domains(t) && l in t.nodes
    ensures StayBut(t, WithBody(t, l, b), l)
  {
  }

  lemma StayTwice<V>(t: Tree<V>, t1: Tree<V>, t': Tree<V>, l: Ptr)
    requires StayBut(t, t1, l) && StayBut(t1, t', l)
    ensures StayBut(t, t', l)
  {
  }

  // ----- internodes without separators -----

  /** Internode `n`, below the root, has no separators. */
  ghost predicate Bare<V>(t: Tree<V>, n: Ptr) {
    n in t.nodes && n != t.root && t.nodes[n].body.Inner? && t.nodes[n].body.keys == []
  }

  ghost predicate NoneBared<V>(t: Tree<V>, t': Tree<V>) {
    forall n :: Bare(t', n) ==> Bare(t, n)
  }

  /** Only `q` may have become one. */
  ghost predicate NoneBaredBut<V>(t: Tree<V>, t': Tree<V>, q: Ptr) {
    forall n :: n != q && Bare(t', n) ==> Bare(t, n)
  }

  lemma TakenOutBare<V>(t: Tree<V>, n: Ptr, s: int, u: int, q: Ptr, i: nat)
    requires HoleAt(t, n, s, u, q, i)
    ensures NoneBaredBut(t, TakenOut(t, n, s, u, q, i), q)
  {
    hide Inv, DownOk, ChildOk;
  }

  lemma CollapsedBare<V>(t: Tree<V>, n: Ptr, x: Ptr, q: Ptr, i: nat)
    requires Domains(t) && Collapsible(t, n, x, q, i) && x in t.nodes && x != n
    ensures NoneBaredBut(t, Collapsed(t, n, x, q, i), q)
  {
    hide Inv, DownOk, ChildOk;
  }

  lemma BareSelf<V>(t: Tree<V>, q: Ptr)
    ensures NoneBaredBut(t, t, q)
  {
  }

  /** One turn of the climb from `p`, which goes, to `q`. */
  lemma BareUp<V>(t: Tree<V>, t1: Tree<V>, t': Tree<V>, p: Ptr, q: Ptr)
    requires NoneBaredBut(t, t1, p) && NoneBaredBut(t1, t', q) && p !in t'.nodes
    ensures NoneBaredBut(t, t', q)
  {
  }

  /** The climb ends at a node that is none. */
  lemma BareEnds<V>(t: Tree<V>, t': Tree<V>, q: Ptr)
    requires NoneBaredBut(t, t', q) && !Bare(t', q)
    ensures NoneBared(t, t')
  {
  }

  lemma UnlinkedBare<V>(t: Tree<V>, l: Ptr)
    requires Domains(t) && l in t.nodes && t.nodes[l].body.Leaf? && Linked(t, l)
    ensures NoneBared(t, Unlinked(t, l))
  {
  }

  lemma WithBodyBare<V>(t: Tree<V>, l: Ptr, b: Body<V>)
    requires Domains(t) && l in t.nodes && t.nodes[l].body.Leaf? && b.Leaf?
    ensures NoneBared(t, WithBody(t, l, b))
  {
  }

  lemma BareTwice<V>(t: Tree<V>, t1: Tree<V>, t': Tree<V>)
    requires NoneBared(t, t1) && NoneBared(t1, t')
    ensures NoneBared(t, t')
  {
  }

  // ----- what it means for an empty layer -----

  lemma HeldIf<V>(t: Tree<V>, k: EntryKey)
    requires Inv(t, Done) && LeavesOk(t)
    ensures k in ViewOf(t) <==> Lookup(t, k).Some?
  {
  }

  /** If a layer holds nothing, its leaves hold nothing. */
  lemma EmptyLeaf<V>(t: Tree<V>, n: Ptr)
    requires Inv(t, Done) && LeavesOk(t) && ViewOf(t) == imap[] && n in t.nodes && t.nodes[n].body.Leaf?
    ensures t.nodes[n].body.size == 0
  {
    var b := t.nodes[n].body;
    assert LeafAtOk(t, n);
    if 0 < b.size {
      var e := Entries(b)[0];
      GetAt(Entries(b), 0);
      LookupIn(t, n, e.key);
      HeldIf(t, e.key);
    }
  }

  /** Then the first leaf is the only one, if no other is empty. */
  lemma FirstIsLast<V>(t: Tree<V>, l: Ptr)
    requires Inv(t, Done) && LeavesOk(t) && FilledBut(t, l) && ViewOf(t) == imap[]
    requires l in t.nodes && t.nodes[l].body.Leaf? && t.nodes[l].body.prev == NULL
    ensures t.nodes[l].body.next == NULL && t.nodes[l].body.size == 0
  {
    EmptyLeaf(t, l);
    if t.nodes[l].body.next != NULL {
      NextIsFilled(t, l);
      var nx := t.nodes[l].body.next;
      assert Filled(t, nx);
      EmptyLeaf(t, nx);
    }
  }

  /** And internodes above it have no separators. */
  lemma NoSeparators<V>(t: Tree<V>)
    requires Inv(t, Done) && LeavesOk(t) && AllFilled(t) && ViewOf(t) == imap[]
    requires t.root in t.nodes && t.nodes[t.root].body.Inner?
    ensures t.nodes[t.root].body.keys == []
  {
    var b := t.nodes[t.root].body;
    KeysInside(t, Done, t.root);
    assert UpOk(t, Done, t.root);
    if b.keys != [] {
      var x := b.keys[0];
      assert ChildOk(t, Done, t.root, 1) && NodeOk(t, b.child[1]) && NodeOk(t, t.root);
      FirstChild(t);
      var c := b.child[1];
      LeafBelow(t, c, x);
    }
  }

  lemma FirstChild<V>(t: Tree<V>)
    requires Inv(t, Done) && t.root in t.nodes && t.nodes[t.root].body.Inner? && t.nodes[t.root].body.keys != []
    ensures 0 < t.nodes[t.root].body.keys[0]
  {
    assert UpOk(t, Done, t.root) && DownOk(t, Done, t.root);
    assert ChildOk(t, Done, t.root, 0) && NodeOk(t, t.nodes[t.root].body.child[0]);
  }

  /** A leaf that starts above 0 is filled. */
  lemma LeafBelow<V>(t: Tree<V>, c: Ptr, x: int)
    requires Inv(t, Done) && LeavesOk(t) && AllFilled(t) && Contains(t, c, x) && 0 < t.lo[c] <= x
    ensures ViewOf(t) != imap[]
  {
    var l := Descend(t, c, x);
    StartsAbove(t, c, x);
    assert LeafAtOk(t, l) && Filled(t, l);
    if ViewOf(t) == imap[] { EmptyLeaf(t, l); }
  }

  lemma {:induction false} StartsAbove<V>(t: Tree<V>, c: Ptr, x: int)
    requires Inv(t, Done) && Contains(t, c, x)
    ensures t.lo[c] <= t.lo[Descend(t, c, x)]
    decreases t.nodes[c].body.Height()
  {
    if t.nodes[c].body.Inner? { StartsAbove(t, Step(t, Done, c, x), x); }
  }
}
