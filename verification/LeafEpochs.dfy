/** Phantom epochs of the leaves of one layer (masstree_struct.hh:281, masstree_split.hh:197,
    masstree_remove.hh:193-206): which leaf is responsible for a slice before and after each operation,
    and what happens to its epoch. */
module LeafEpochs {
  import opened NodeStore
  import opened LeafNode
  import opened LeafChain
  import opened LeafRemove
  import opened TreeSplit

  /** The epoch of the leaf responsible for slice `x`. */
  ghost function EpochFor<V>(t: Tree<V>, e: Ptr -> int, x: Ikey): int
    requires Inv(t, Done)
  {
    e(LeafFor(t, x))
  }

  ghost predicate SameOwners<V>(t: Tree<V>, t': Tree<V>) {
    Inv(t, Done) && Inv(t', Done) && forall x: Ikey :: LeafFor(t', x) == LeafFor(t, x)
  }

  ghost predicate SameEpochs<V>(t: Tree<V>, e: Ptr -> int, t': Tree<V>, e': Ptr -> int) {
    Inv(t, Done) && Inv(t', Done) && forall x: Ikey :: EpochFor(t', e', x) == EpochFor(t, e, x)
  }

  ghost predicate NoLower<V>(t: Tree<V>, e: Ptr -> int, t': Tree<V>, e': Ptr -> int) {
    Inv(t, Done) && Inv(t', Done) && forall x: Ikey :: EpochFor(t, e, x) <= EpochFor(t', e', x)
  }

  function Stored(e: Ptr -> int, p: Ptr, v: int): Ptr -> int {
    (q: Ptr) => if q == p then v else e(q)
  }

  function Max(a: int, b: int): int {
    if a < b then b else a
  }

  /** The epochs of the leaves. */
  ghost function EpochsOf<V>(t: Tree<V>, e: Ptr -> int): iset<int>
    requires Inv(t, Done)
  {
    iset x: Ikey | true :: EpochFor(t, e, x)
  }

  lemma EpochIn<V>(t: Tree<V>, e: Ptr -> int, x: Ikey)
    requires Inv(t, Done)
    ensures EpochFor(t, e, x) in EpochsOf(t, e)
  {
  }

  lemma SameEpochsSet<V>(t: Tree<V>, e: Ptr -> int, t': Tree<V>, e': Ptr -> int)
    requires SameEpochs(t, e, t', e')
    ensures EpochsOf(t', e') == EpochsOf(t, e)
  {
    forall v ensures v in EpochsOf(t', e') <==> v in EpochsOf(t, e) {
      if v in EpochsOf(t', e') {
        var x: Ikey :| EpochFor(t', e', x) == v;
        assert EpochFor(t, e, x) == v;
      }
      if v in EpochsOf(t, e) {
        var x: Ikey :| EpochFor(t, e, x) == v;
        assert EpochFor(t', e', x) == v;
      }
    }
  }

  lemma StoredSet<V>(t: Tree<V>, e: Ptr -> int, l: Ptr, v: int)
    requires Inv(t, Done)
    ensures EpochsOf(t, Stored(e, l, v)) <= EpochsOf(t, e) + iset{v}
  {
    forall w | w in EpochsOf(t, Stored(e, l, v)) ensures w in EpochsOf(t, e) + iset{v} {
      var x: Ikey :| EpochFor(t, Stored(e, l, v), x) == w;
      EpochIn(t, e, x);
    }
  }

  lemma RaisedSet<V>(t: Tree<V>, e: Ptr -> int, x: Ikey, v: int)
    requires Inv(t, Done)
    ensures var l := LeafFor(t, x); EpochsOf(t, Stored(e, l, Max(e(l), v))) <= EpochsOf(t, e) + iset{v}
  {
    var l := LeafFor(t, x);
    StoredSet(t, e, l, Max(e(l), v));
    EpochIn(t, e, x);
  }

  lemma SameLeavesOwners<V>(t: Tree<V>, t': Tree<V>)
    requires Inv(t, Done) && Inv(t', Done) && SameLeaves(t, t')
    ensures SameOwners(t, t')
  {
    forall x: Ikey ensures LeafFor(t', x) == LeafFor(t, x) {
      var l := LeafFor(t, x);
      LeafForUnique(t', l, x);
    }
  }

  lemma WithBodyOwners<V>(t: Tree<V>, l: Ptr, b: Body<V>)
    requires Inv(t, Done) && l in t.nodes && t.nodes[l].body.Leaf? && b.Leaf? && Inv(WithBody(t, l, b), Done)
    ensures SameOwners(t, WithBody(t, l, b))
  {
    forall x: Ikey ensures LeafFor(WithBody(t, l, b), x) == LeafFor(t, x) {
      LeafForUnique(WithBody(t, l, b), LeafFor(t, x), x);
    }
  }

  /** A split: the new leaf starts with the old one's epoch, so the epoch for each slice is as before. */
  lemma SplitEpochs<V>(t: Tree<V>, l: Ptr, c: Ptr, x: Ikey, bl: Body<V>, br: Body<V>, t': Tree<V>, e: Ptr -> int)
    requires SplitReady(t, l, c, x, bl, br) && Inv(t', Done) && SameLeaves(LeafSplit(t, l, c, x, bl, br), t')
    ensures SameEpochs(t, e, t', Stored(e, c, e(l)))
  {
    forall y: Ikey ensures EpochFor(t', Stored(e, c, e(l)), y) == EpochFor(t, e, y) {
      LeafSplitHalf(t, l, c, x, bl, br, t', y);
      var m := LeafFor(t, y);
      LeafForUnique(t', if m == l && x <= y then c else m, y);
    }
  }

  /** The removal of an empty leaf: its predecessor is responsible for its slices now. */
  lemma RemovedOwner<V>(t: Tree<V>, l: Ptr, t': Tree<V>, x: Ikey)
    requires Removable(t, l) && Inv(t', Done) && l !in t'.nodes && LeavesLeft(Unlinked(t, l), t', l, t.lo[l], t.hi[l])
    ensures LeafFor(t', x) == if LeafFor(t, x) == l then t.nodes[l].body.prev else LeafFor(t, x)
  {
    var m := LeafFor(t, x);
    var n := if m == l then t.nodes[l].body.prev else m;
    LeafAfter(t, l, t', n);
    assert NodeOk(t, n) && NodeOk(t, l) && LeafAtOk(t, l);
    LeafForUnique(t', n, x);
  }

  /** It has been given at least that leaf's epoch, so no slice's epoch has gone down. */
  lemma RemovedEpochs<V>(t: Tree<V>, l: Ptr, t': Tree<V>, e: Ptr -> int)
    requires Removable(t, l) && Inv(t', Done) && l !in t'.nodes && LeavesLeft(Unlinked(t, l), t', l, t.lo[l], t.hi[l])
    ensures var pv := t.nodes[l].body.prev; NoLower(t, e, t', Stored(e, pv, Max(e(pv), e(l))))
  {
    var pv := t.nodes[l].body.prev;
    forall x: Ikey ensures EpochFor(t, e, x) <= EpochFor(t', Stored(e, pv, Max(e(pv), e(l))), x) {
      RemovedOwner(t, l, t', x);
    }
  }

  /** And it has an epoch that one of the two had. */
  lemma RemovedSet<V>(t: Tree<V>, l: Ptr, t': Tree<V>, e: Ptr -> int)
    requires Removable(t, l) && Inv(t', Done) && l !in t'.nodes && LeavesLeft(Unlinked(t, l), t', l, t.lo[l], t.hi[l])
    ensures var pv := t.nodes[l].body.prev; EpochsOf(t', Stored(e, pv, Max(e(pv), e(l)))) <= EpochsOf(t, e)
  {
    var pv := t.nodes[l].body.prev;
    var e' := Stored(e, pv, Max(e(pv), e(l)));
    OwnEpoch(t, e, l);
    OwnEpoch(t, e, pv);
    forall w | w in EpochsOf(t', e') ensures w in EpochsOf(t, e) {
      var x: Ikey :| EpochFor(t', e', x) == w;
      RemovedOwner(t, l, t', x);
      EpochIn(t, e, x);
    }
  }

  lemma OwnEpoch<V>(t: Tree<V>, e: Ptr -> int, l: Ptr)
    requires Inv(t, Done) && l in t.nodes && t.nodes[l].body.Leaf?
    ensures e(l) in EpochsOf(t, e)
  {
    assert NodeOk(t, l);
    LeafForUnique(t, l, t.lo[l]);
    EpochIn(t, e, t.lo[l]);
  }

  /** Raising one leaf's epoch. */
  lemma RaisedEpochs<V>(t: Tree<V>, e: Ptr -> int, l: Ptr, v: int)
    requires Inv(t, Done)
    ensures NoLower(t, e, t, Stored(e, l, Max(e(l), v))) && (e(l) <= v ==> NoLower(t, e, t, Stored(e, l, v)))
  {
  }

  lemma OwnersEpochs<V>(t: Tree<V>, t': Tree<V>, e: Ptr -> int)
    requires SameOwners(t, t')
    ensures SameEpochs(t, e, t', e)
  {
  }

  lemma NoLowerTwice<V>(t: Tree<V>, e: Ptr -> int, t1: Tree<V>, e1: Ptr -> int, t': Tree<V>, e': Ptr -> int)
    requires NoLower(t, e, t1, e1) && NoLower(t1, e1, t', e')
    ensures NoLower(t, e, t', e')
  {
    forall x: Ikey ensures EpochFor(t, e, x) <= EpochFor(t', e', x) {
      assert EpochFor(t, e, x) <= EpochFor(t1, e1, x);
    }
  }

  lemma OwnersNoLower<V>(t: Tree<V>, t': Tree<V>, e: Ptr -> int)
    requires SameOwners(t, t')
    ensures NoLower(t, e, t', e)
  {
  }

  lemma SameOwnersTwice<V>(t: Tree<V>, t1: Tree<V>, t': Tree<V>)
    requires SameOwners(t, t1) && SameOwners(t1, t')
    ensures SameOwners(t, t')
  {
    forall x: Ikey ensures LeafFor(t', x) == LeafFor(t, x) {
      assert LeafFor(t1, x) == LeafFor(t, x);
    }
  }

  lemma SameOwnersSelf<V>(t: Tree<V>)
    requires Inv(t, Done)
    ensures SameOwners(t, t)
  {
  }

  lemma SameOwner<V>(t: Tree<V>, t': Tree<V>, x: Ikey)
    requires SameOwners(t, t')
    ensures LeafFor(t', x) == LeafFor(t, x)
  {
  }

  lemma EpochsThenOwners<V>(t: Tree<V>, e: Ptr -> int, t1: Tree<V>, e1: Ptr -> int, t': Tree<V>)
    requires SameEpochs(t, e, t1, e1) && SameOwners(t1, t')
    ensures SameEpochs(t, e, t', e1)
  {
    forall x: Ikey ensures EpochFor(t', e1, x) == EpochFor(t, e, x) {
      assert EpochFor(t1, e1, x) == EpochFor(t, e, x) && LeafFor(t', x) == LeafFor(t1, x);
    }
  }

  lemma NoLowerSelf<V>(t: Tree<V>, e: Ptr -> int)
    requires Inv(t, Done)
    ensures NoLower(t, e, t, e)
  {
  }

  lemma SameEpochAt<V>(t: Tree<V>, e: Ptr -> int, t': Tree<V>, e': Ptr -> int, x: Ikey)
    requires SameEpochs(t, e, t', e')
    ensures EpochFor(t', e', x) == EpochFor(t, e, x)
  {
  }

  lemma NoLowerAt<V>(t: Tree<V>, e: Ptr -> int, t': Tree<V>, e': Ptr -> int, x: Ikey)
    requires NoLower(t, e, t', e')
    ensures EpochFor(t, e, x) <= EpochFor(t', e', x)
  {
  }
}
