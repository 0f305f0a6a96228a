/** What removing an empty leaf (masstree_remove.hh, `remove_leaf`) does to the other leaves: its
    predecessor takes over its interval, the leaf list closes up, and no lookup changes. */
module LeafRemove {
  import opened NodeStore
  import opened LeafNode
  import opened LeafChain
  import opened MapOf
  import opened TreeRemove
  import opened TreeSplit

  /** Leaf `l` has a predecessor, and a successor or none. */
  ghost predicate Linked<V>(t: Tree<V>, l: Ptr)
    requires l in t.nodes && t.nodes[l].body.Leaf?
  {
    var pv, nx := t.nodes[l].body.prev, t.nodes[l].body.next;
    && pv != NULL && pv in t.nodes && pv != l && t.nodes[pv].body.Leaf?
    && (nx != NULL ==> nx in t.nodes && nx != l && nx != pv && t.nodes[nx].body.Leaf?)
  }

  /** An empty leaf with a predecessor. */
  ghost predicate Removable<V>(t: Tree<V>, l: Ptr) {
    && Inv(t, Done) && LeavesOk(t) && l in t.nodes && t.nodes[l].body.Leaf? && t.nodes[l].body.size == 0
    && LeafAtOk(t, l) && Linked(t, l) && 0 < t.lo[l] < t.hi[l]
  }

  lemma CanRemove<V>(t: Tree<V>, l: Ptr)
    requires Inv(t, Done) && LeavesOk(t) && l in t.nodes && t.nodes[l].body.Leaf?
    requires t.nodes[l].body.size == 0 && t.nodes[l].body.prev != NULL
    ensures Removable(t, l) && t.nodes[l].body.slots[0].key.ikey == t.lo[l] && l != t.root
  {
    assert LeafAtOk(t, l) && NodeOk(t, l);
    assert LeafAtOk(t, t.nodes[l].body.prev) && NodeOk(t, t.nodes[l].body.prev);
    assert UpOk(t, Done, t.root);
  }

  /** The leaf list without `l` (btree_leaflink.hh, `unlink`). */
  ghost function Unlinked<V>(t: Tree<V>, l: Ptr): (t': Tree<V>)
    requires Domains(t) && l in t.nodes && t.nodes[l].body.Leaf? && Linked(t, l)
    ensures Domains(t') && t'.nodes.Keys == t.nodes.Keys
  {
    var pv, nx := t.nodes[l].body.prev, t.nodes[l].body.next;
    var nodes := if nx == NULL then t.nodes else t.nodes[nx := t.nodes[nx].(body := t.nodes[nx].body.(prev := pv))];
    t.(nodes := nodes[pv := nodes[pv].(body := nodes[pv].body.(next := nx))])
  }

  lemma UnlinkedDown<V>(t: Tree<V>, l: Ptr, n: Ptr)
    requires Removable(t, l) && PendOk(Unlinked(t, l), Hole(l)) && n in t.nodes && t.nodes[n].body.Inner?
    ensures DownOk(Unlinked(t, l), Hole(l), n)
  {
    assert DownOk(t, Done, n);
    KeepDown(t, Done, Unlinked(t, l), Hole(l), n);
  }

  lemma UnlinkedUp<V>(t: Tree<V>, l: Ptr, n: Ptr)
    requires Removable(t, l) && PendOk(Unlinked(t, l), Hole(l)) && n in t.nodes
    ensures NodeOk(Unlinked(t, l), n) && UpOk(Unlinked(t, l), Hole(l), n)
  {
    assert NodeOk(t, n) && UpOk(t, Done, n);
  }

  lemma UnlinkedHole<V>(t: Tree<V>, l: Ptr)
    requires Removable(t, l)
    ensures Inv(Unlinked(t, l), Hole(l))
  {
    assert UpOk(t, Done, t.root);
    var t' := Unlinked(t, l);
    hide NodeOk, UpOk, DownOk;
    forall n | n in t'.nodes ensures NodeOk(t', n) && UpOk(t', Hole(l), n) {
      UnlinkedUp(t, l, n);
    }
    forall n | n in t'.nodes && t'.nodes[n].body.Inner? ensures DownOk(t', Hole(l), n) {
      UnlinkedDown(t, l, n);
    }
  }

  /** `t'` has the leaves of `t` but `l`, with bounds `s` moved to `u`. */
  ghost predicate LeavesLeft<V>(t: Tree<V>, t': Tree<V>, l: Ptr, s: int, u: int)
    requires Domains(t) && Domains(t')
  {
    && (forall n :: n in t.nodes && t.nodes[n].body.Leaf? && n != l ==>
          n in t'.nodes && t'.nodes[n].body == t.nodes[n].body
          && t'.lo[n] == Swap(s, u, t.lo[n]) && t'.hi[n] == Swap(s, u, t.hi[n]))
    && (forall n :: n in t'.nodes && t'.nodes[n].body.Leaf? && n != l ==> n in t.nodes && t.nodes[n].body.Leaf?)
  }

  lemma DroppedLeaves<V>(t0: Tree<V>, l: Ptr, t: Tree<V>, n: Ptr, q: Ptr, i: nat, s: int)
    requires Domains(t0) && Domains(t) && LeavesLeft(t0, t, l, s, s)
    requires n in t.nodes && (n == l || t.nodes[n].body.Inner?) && n != t.root && q in t.nodes && q != n
    requires t.nodes[q].body.Inner?
    requires i < |t.nodes[q].body.child| && |t.nodes[q].body.child| == |t.nodes[q].body.keys| + 1
    ensures LeavesLeft(t0, Dropped(t, n, q, i), l, s, s)
  {
  }

  lemma SwappedLeaves<V>(t0: Tree<V>, l: Ptr, t: Tree<V>, s: int, u: int)
    requires Domains(t0) && Domains(t) && LeavesLeft(t0, t, l, s, s)
    ensures LeavesLeft(t0, Swapped(t, s, u), l, s, u)
  {
  }

  lemma CollapsedLeaves<V>(t0: Tree<V>, l: Ptr, t: Tree<V>, p0: Ptr, x: Ptr, g: Ptr, i: nat, s: int, u: int)
    requires Domains(t0) && Domains(t) && LeavesLeft(t0, t, l, s, u) && p0 in t.nodes && t.nodes[p0].body.Inner?
    requires p0 != t.root && g in t.nodes && g != p0 && t.nodes[g].body.Inner?
    requires i < |t.nodes[g].body.child| && x in t.nodes && x != p0 && x != g
    ensures LeavesLeft(t0, Collapsed(t, p0, x, g, i), l, s, u)
  {
  }

  /** Two leaves that start at the same slice are one. */
  lemma LeafStart<V>(t: Tree<V>, m: Ptr, l: Ptr)
    requires Inv(t, Done) && m in t.nodes && l in t.nodes && t.nodes[m].body.Leaf? && t.nodes[l].body.Leaf?
    requires t.lo[m] == t.lo[l]
    ensures m == l
  {
    assert NodeOk(t, m) && NodeOk(t, l);
    LeafForUnique(t, m, t.lo[m]);
    LeafForUnique(t, l, t.lo[m]);
  }

  /** What the remaining leaves are: only the predecessor changed its interval. */
  lemma LeafAfter<V>(t: Tree<V>, l: Ptr, t': Tree<V>, n: Ptr)
    requires Removable(t, l) && Domains(t') && l !in t'.nodes
    requires LeavesLeft(Unlinked(t, l), t', l, t.lo[l], t.hi[l]) && n in t.nodes && n != l && t.nodes[n].body.Leaf?
    ensures LeafAtOk(t, n) && n in t'.nodes && t'.lo[n] == t.lo[n]
    ensures t'.hi[n] == if n == t.nodes[l].body.prev then t.hi[l] else t.hi[n]
    ensures var b := t.nodes[n].body;
      t'.nodes[n].body == b.(next := if b.next == l then t.nodes[l].body.next else b.next,
                             prev := if b.prev == l then t.nodes[l].body.prev else b.prev)
  {
    assert LeafAtOk(t, n) && NodeOk(t, n) && NodeOk(t, l);
    if t.lo[n] == t.lo[l] { LeafStart(t, n, l); }
    if t.hi[n] == t.lo[l] { LeafStart(t, t.nodes[n].body.next, l); }
  }

  lemma LeafAfterOk<V>(t: Tree<V>, l: Ptr, t': Tree<V>, n: Ptr)
    requires Removable(t, l) && Domains(t') && l !in t'.nodes
    requires LeavesLeft(Unlinked(t, l), t', l, t.lo[l], t.hi[l]) && n in t.nodes && n != l && t.nodes[n].body.Leaf?
    ensures n in t'.nodes && t'.nodes[n].body.Leaf? && LeafAtOk(t', n)
  {
    LeafAfter(t, l, t', n);
    var b := t.nodes[n].body;
    assert NodeOk(t, l);
    var nx, pv := t'.nodes[n].body.next, t'.nodes[n].body.prev;
    if nx != NULL { LeafAfter(t, l, t', nx); }
    if pv != NULL { LeafAfter(t, l, t', pv); }
    assert Entries(t'.nodes[n].body) == Entries(b);
    hide Unlinked, LeavesLeft, LeafOk;
    assert LeafOk(t'.nodes[n].body, t'.lo[n], t'.hi[n]) by {
      LeafOkWider(b, t'.nodes[n].body, t.lo[n], t.hi[n], t'.hi[n]);
    }
  }

  lemma LeafOkWider<V>(b: Body<V>, b': Body<V>, lo: int, hi: int, hi': int)
    requires LeafOk(b, lo, hi) && b'.Leaf? && b' == b.(next := b'.next, prev := b'.prev) && hi <= hi'
    ensures LeafOk(b', lo, hi')
  {
    assert Entries(b') == Entries(b);
  }

  /** The tree without the empty leaf has a correct leaf list and the same contents. */
  lemma RemovedView<V>(t: Tree<V>, l: Ptr, t': Tree<V>)
    requires Removable(t, l) && Inv(t', Done) && l !in t'.nodes
    requires LeavesLeft(Unlinked(t, l), t', l, t.lo[l], t.hi[l])
    ensures LeavesOk(t') && ViewOf(t') == ViewOf(t) && BoundsKept(t, t')
  {
    forall n | n in t.nodes && t.nodes[n].body.Leaf? && n in t'.nodes
      ensures t'.nodes[n].body.Leaf? && t'.lo[n] == t.lo[n]
    {
      LeafAfter(t, l, t', n);
    }
    forall n | n in t'.nodes && t'.nodes[n].body.Leaf? ensures LeafAtOk(t', n) {
      LeafAfterOk(t, l, t', n);
    }
    forall k ensures Lookup(t', k) == Lookup(t, k) {
      RemovedLookup(t, l, t', k);
    }
    AsMapSame(Lookups(t), Lookups(t'));
  }

  lemma RemovedLookup<V>(t: Tree<V>, l: Ptr, t': Tree<V>, k: EntryKey)
    requires Removable(t, l) && Inv(t', Done) && l !in t'.nodes && LeavesOk(t')
    requires LeavesLeft(Unlinked(t, l), t', l, t.lo[l], t.hi[l])
    ensures Lookup(t', k) == Lookup(t, k)
  {
    var m := LeafFor(t, k.ikey);
    LookupIn(t, m, k);
    var n := if m == l then t.nodes[l].body.prev else m;
    LeafAfter(t, l, t', n);
    assert NodeOk(t, n);
    LookupIn(t', n, k);
    assert Entries(t'.nodes[n].body) == Entries(t.nodes[n].body);
    if m == l {
      GetNone(Entries(t.nodes[n].body), k);
      GetNone(Entries(t.nodes[l].body), k);
    }
  }

  /** A removal half way up: `n` is a hole where leaf `l` was, or (`x` not null) an internode without
      separators whose only child `x` is to take its place. */
  ghost predicate Removing<V>(t0: Tree<V>, t: Tree<V>, l: Ptr, n: Ptr, x: Ptr, s: int, u: int) {
    && Domains(t0) && 0 < s && n in t.nodes && (n == l <==> l in t.nodes) && (n != l ==> t.nodes[n].body.Inner?)
    && if x == NULL then
         Inv(t, Hole(n)) && t.lo[n] == s && t.hi[n] == u && LeavesLeft(t0, t, l, s, s)
       else
         && Inv(t, Done) && Contains(t, n, s) && n != t.root && LeavesLeft(t0, t, l, s, u)
         && n != l && t.nodes[n].body.keys == [] && t.nodes[n].body.child == [x]
  }

  /** The removal is over. */
  ghost predicate Gone<V>(t0: Tree<V>, t: Tree<V>, l: Ptr, s: int, u: int) {
    Domains(t0) && Inv(t, Done) && l !in t.nodes && LeavesLeft(t0, t, l, s, u)
  }

  lemma GoneRoot<V>(t0: Tree<V>, t: Tree<V>, l: Ptr, s: int, u: int, q: Ptr)
    requires Gone(t0, t, l, s, u) && q in t.nodes && t.nodes[q].body.Inner?
    ensures t.nodes[q].root <==> q == t.root
  {
    assert DownOk(t, Done, q);
  }

  /** After one step at parent `q`: go on from there if it has no separator left and is not the root. */
  ghost predicate Stepped<V>(t0: Tree<V>, t: Tree<V>, l: Ptr, q: Ptr, s: int, u: int) {
    && q in t.nodes && t.nodes[q].body.Inner? && |t.nodes[q].body.child| == |t.nodes[q].body.keys| + 1
    && if |t.nodes[q].body.keys| > 0 || t.nodes[q].root then Gone(t0, t, l, s, u)
       else Removing(t0, t, l, q, t.nodes[q].body.child[0], s, u)
  }

  lemma HoleStepped<V>(t0: Tree<V>, t: Tree<V>, l: Ptr, n: Ptr, s: int, u: int, q: Ptr, i: nat)
    requires Removing(t0, t, l, n, NULL, s, u) && HoleAt(t, n, s, u, q, i) && Emptied(t.nodes[q].body, i)
    ensures Stepped(t0, Dropped(t, n, q, i), l, q, s, u)
  {
    HoleUp(t, n, s, u, q, i);
    DroppedLeaves(t0, l, t, n, q, i, s);
    assert DownOk(t, Hole(n), q);
  }

  lemma ClosedLeaves<V>(t0: Tree<V>, l: Ptr, t: Tree<V>, n: Ptr, s: int, u: int, q: Ptr, i: nat)
    requires Domains(t0) && HoleAt(t, n, s, u, q, i) && LeavesLeft(t0, t, l, s, s) && (n == l || t.nodes[n].body.Inner?)
    ensures LeavesLeft(t0, Closed(t, n, s, u, q, i), l, s, u)
  {
    DroppedLeaves(t0, l, t, n, q, i, s);
    SwappedLeaves(t0, l, Dropped(t, n, q, i), s, u);
  }

  lemma ClosedParent<V>(t: Tree<V>, n: Ptr, s: int, u: int, q: Ptr, i: nat)
    requires Closable(t, n, s, u, q, i)
    ensures var c, d := Closed(t, n, s, u, q, i), Unlisted(t.nodes[q].body, i);
      && c.nodes[q].body == d && |d.child| == |d.keys| + 1 && c.root == t.root
      && (|d.keys| == 0 ==> d.child[0] != NULL && Contains(c, q, s))
  {
    ParentAfter(t, n, s, u, q, i);
    NeedsRedirect(t, n, s, u, q, i);
    assert NodeOk(t, n) && NodeOk(t, q);
  }

  lemma ClosedRoot<V>(t: Tree<V>, n: Ptr, s: int, u: int, q: Ptr, i: nat)
    requires HoleAt(t, n, s, u, q, i) && Inv(Closed(t, n, s, u, q, i), Done)
    ensures q in Closed(t, n, s, u, q, i).nodes && (Closed(t, n, s, u, q, i).nodes[q].root <==> q == t.root)
  {
    hide Swapped, Dropped;
    ClosedNode(t, n, s, u, q, i, q);
    assert DownOk(Closed(t, n, s, u, q, i), Done, q);
  }

  lemma ClosedStepped<V>(t0: Tree<V>, t: Tree<V>, l: Ptr, n: Ptr, s: int, u: int, q: Ptr, i: nat)
    requires Removing(t0, t, l, n, NULL, s, u) && Closable(t, n, s, u, q, i)
    ensures Stepped(t0, Closed(t, n, s, u, q, i), l, q, s, u)
  {
    var c := Closed(t, n, s, u, q, i);
    Close(t, n, s, u, q, i);
    ClosedLeaves(t0, l, t, n, s, u, q, i);
    ClosedParent(t, n, s, u, q, i);
    ClosedRoot(t, n, s, u, q, i);
    hide Swapped, Dropped, Inv, LeavesLeft, Closed;
  }

  lemma CollapsedStepped<V>(t0: Tree<V>, t: Tree<V>, l: Ptr, n: Ptr, x: Ptr, s: int, u: int, q: Ptr, i: nat)
    requires x != NULL && Removing(t0, t, l, n, x, s, u) && Collapsible(t, n, x, q, i)
    ensures x in t.nodes && x != n && q != n && Stepped(t0, Collapsed(t, n, x, q, i), l, q, s, u)
  {
    OnlyChild(t, n, x, q, i);
    Collapse(t, n, x, q, i);
    ParentContains(t, Done, n);
    CollapsedLeaves(t0, l, t, n, x, q, i, s, u);
    assert DownOk(Collapsed(t, n, x, q, i), Done, q);
  }

  /** What one step without a replacement makes of the tree. */
  ghost function TakenOut<V>(t: Tree<V>, n: Ptr, s: int, u: int, q: Ptr, i: nat): (t': Tree<V>)
    requires HoleAt(t, n, s, u, q, i)
    ensures Domains(t') && t'.nodes.Keys == t.nodes.Keys - {n} && t'.root == t.root
  {
    if Emptied(t.nodes[q].body, i) then Dropped(t, n, q, i) else Closed(t, n, s, u, q, i)
  }

  ghost predicate NeedsNewStart<V>(b: Body<V>, i: nat)
    requires b.Inner? && |b.child| > 0
  {
    i <= 1 && |b.keys| > 0 && b.child[0] == NULL
  }

  lemma TakenOutStepped<V>(t0: Tree<V>, t: Tree<V>, l: Ptr, n: Ptr, s: int, u: int, q: Ptr, i: nat)
    requires Removing(t0, t, l, n, NULL, s, u) && HoleAt(t, n, s, u, q, i)
    ensures var t' := TakenOut(t, n, s, u, q, i);
      && Stepped(t0, t', l, q, s, u) && q in t'.nodes && t'.root in t'.nodes
      && t'.nodes[q].body.Height() == t.nodes[q].body.Height()
      && t'.nodes[t.root].body.Height() == t.nodes[t.root].body.Height()
  {
    HoleParentShape(t, n, s, u, q, i);
    if Emptied(t.nodes[q].body, i) {
      HoleStepped(t0, t, l, n, s, u, q, i);
    } else {
      ClosedStepped(t0, t, l, n, s, u, q, i);
      ClosedNode(t, n, s, u, q, i, q);
      ClosedNode(t, n, s, u, q, i, t.root);
    }
    hide Stepped, Closed;
  }

  /** The stores of one step: drop the hole, and redirect if the parent has a new start. */
  lemma TakenOutNodes<V>(t: Tree<V>, n: Ptr, s: int, u: int, q: Ptr, i: nat)
    requires HoleAt(t, n, s, u, q, i)
    ensures Domains(t) && q in t.nodes && t.nodes[q].body.Inner? && i < |t.nodes[q].body.child| && q != n
    ensures |t.nodes[q].body.child| == |t.nodes[q].body.keys| + 1 && n != t.root && n in t.nodes && t.root in t.nodes
    ensures var t', d, b := TakenOut(t, n, s, u, q, i), Dropped(t, n, q, i), Unlisted(t.nodes[q].body, i);
      && |b.child| > 0 && d.nodes == t.nodes[q := t.nodes[q].(body := b)] - {n}
      && t'.nodes == (if NeedsNewStart(b, i)
        then SwappedBetween(d.nodes, t.nodes[q].body.Height(), t.nodes[t.root].body.Height(), t.lo[q], b.keys[0])
        else d.nodes)
      && (NeedsNewStart(b, i)
         ==> MatchesAbove(t, Hole(n), d.nodes, t.nodes[q].body.Height()) && Contains(t, q, s) && 0 < t.lo[q])
  {
    HoleParentShape(t, n, s, u, q, i);
    if !Emptied(t.nodes[q].body, i) {
      NeedsRedirect(t, n, s, u, q, i);
      RedirectCloses(t, n, s, u, q, i);
      DroppedMatches(t, n, s, u, q, i);
    }
    hide Closed, MatchesAbove, SwappedBetween;
  }

  lemma RemovingParent<V>(t0: Tree<V>, t: Tree<V>, l: Ptr, n: Ptr, x: Ptr, s: int, u: int)
    requires Removing(t0, t, l, n, x, s, u)
    ensures n in t.nodes && t.root in t.nodes && n != t.root
    ensures var q := t.nodes[n].parent;
      && q in t.nodes && t.nodes[q].body.Inner? && Sorted(t.nodes[q].body.keys)
      && t.nodes[n].body.Height() < t.nodes[q].body.Height() <= t.nodes[t.root].body.Height()
  {
    var p := if x == NULL then Hole(n) else Done;
    var i := ChildIndex(t, p, n);
    assert NodeOk(t, t.nodes[n].parent);
  }

  lemma UnlinkedRemoving<V>(t: Tree<V>, l: Ptr)
    requires Removable(t, l)
    ensures Removing(Unlinked(t, l), Unlinked(t, l), l, l, NULL, t.lo[l], t.hi[l])
    ensures Domains(t) && t.root in Unlinked(t, l).nodes
  {
    UnlinkedHole(t, l);
    assert LeavesLeft(Unlinked(t, l), Unlinked(t, l), l, t.lo[l], t.lo[l]);
  }

  lemma CollapsedParent<V>(t: Tree<V>, p0: Ptr, x: Ptr, g: Ptr, i: nat, s: Ikey)
    requires Collapsible(t, p0, x, g, i) && Contains(t, g, s)
    ensures Domains(t) && g in t.nodes && p0 in t.nodes && t.nodes[g].body.Inner? && i < |t.nodes[g].body.child|
    ensures x in t.nodes && x != p0 && g != p0 && x != g && t.root in t.nodes && p0 != t.root
    ensures |t.nodes[g].body.child| == |t.nodes[g].body.keys| + 1
    ensures var t' := Collapsed(t, p0, x, g, i);
      && MatchesAbove(t', Done, t'.nodes, t'.nodes[g].body.Height()) && Contains(t', g, s)
      && t'.nodes[g].body.Height() == t.nodes[g].body.Height()
      && t'.nodes[t.root].body.Height() == t.nodes[t.root].body.Height()
      && (t'.nodes[g].body.child[0] == NULL ==>
          0 < |t'.nodes[g].body.keys| && t'.nodes[g].body.keys[0] == t'.lo[g] && 0 < t'.lo[g])
  {
    OnlyChild(t, p0, x, g, i);
    Collapse(t, p0, x, g, i);
    assert DownOk(Collapsed(t, p0, x, g, i), Done, g);
  }
}
