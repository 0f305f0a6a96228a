/** Why `remove_leaf` and `redirect` (masstree_remove.hh) keep the tree invariants. A hole moves up
    while internodes lose their last child; where it stops, the interval [s, u) of the removed leaf
    goes to its predecessor: every bound and separator `s` becomes `u`. */
module TreeRemove {
  import opened NodeStore
  import opened TreeSplit

  function Swap(s: int, u: int, b: int): int {
    if b == s then u else b
  }

  function SwapKeys(s: int, u: int, keys: seq<int>): (r: seq<int>)
    ensures |r| == |keys| && forall j :: 0 <= j < |keys| ==> r[j] == Swap(s, u, keys[j])
  {
    seq(|keys|, j requires 0 <= j < |keys| => if keys[j] == s then u else keys[j])
  }

  function SwapBody<V>(s: int, u: int, b: Body<V>): Body<V> {
    if b.Leaf? then b else b.(keys := SwapKeys(s, u, b.keys))
  }

  /** Every separator and bound `s` becomes `u`. */
  ghost function Swapped<V>(t: Tree<V>, s: int, u: int): (t': Tree<V>)
    requires Domains(t)
    ensures Domains(t') && t'.nodes.Keys == t.nodes.Keys
  {
    Tree(map m | m in t.nodes :: t.nodes[m].(body := SwapBody(s, u, t.nodes[m].body)),
         map m | m in t.nodes :: Swap(s, u, t.lo[m]),
         map m | m in t.nodes :: Swap(s, u, t.hi[m]), t.root)
  }

  function RemoveIndex<T>(s: seq<T>, i: nat): (r: seq<T>)
    requires i < |s|
    ensures |r| == |s| - 1
    ensures forall k :: 0 <= k < |r| ==> r[k] == if k < i then s[k] else s[k + 1]
  {
    s[..i] + s[i + 1..]
  }

  /** `q` without its child at index `i`: the separator on its left goes too, but a first child
      leaves a null pointer behind. */
  function Unlisted<V>(b: Body<V>, i: nat): (d: Body<V>)
    requires b.Inner? && i < |b.child| && |b.child| == |b.keys| + 1
    ensures d.Inner? && |d.child| == |d.keys| + 1 && d.level == b.level
  {
    if i > 0 then Inner(RemoveIndex(b.keys, i - 1), RemoveIndex(b.child, i), b.level)
    else Inner(b.keys, b.child[0 := NULL], b.level)
  }

  ghost function Dropped<V>(t: Tree<V>, n: Ptr, q: Ptr, i: nat): (t': Tree<V>)
    requires Domains(t) && n in t.nodes && n != t.root && q in t.nodes && q != n && t.nodes[q].body.Inner?
    requires i < |t.nodes[q].body.child| && |t.nodes[q].body.child| == |t.nodes[q].body.keys| + 1
    ensures Domains(t') && t'.nodes.Keys == t.nodes.Keys - {n}
  {
    Tree(t.nodes[q := t.nodes[q].(body := Unlisted(t.nodes[q].body, i))] - {n}, t.lo - {n}, t.hi - {n}, t.root)
  }

  /** The hole, the interval it leaves behind, its parent, and its index there. */
  ghost predicate HoleAt<V>(t: Tree<V>, n: Ptr, s: int, u: int, q: Ptr, i: nat) {
    && Inv(t, Hole(n)) && s == t.lo[n] && u == t.hi[n] && 0 < s
    && q == t.nodes[n].parent && q in t.nodes && t.nodes[q].body.Inner? && q != n && DownOk(t, Hole(n), q)
    && i < |t.nodes[q].body.child| && t.nodes[q].body.child[i] == n && ChildOk(t, Hole(n), q, i)
  }

  lemma HoleParent<V>(t: Tree<V>, n: Ptr) returns (i: nat)
    requires Inv(t, Hole(n)) && 0 < t.lo[n]
    ensures HoleAt(t, n, t.lo[n], t.hi[n], t.nodes[n].parent, i)
    ensures i == Upper(t.nodes[t.nodes[n].parent].body.keys, t.lo[n])
  {
    i := ChildIndex(t, Hole(n), n);
    assert NodeOk(t, n);
    UpperIs(t.nodes[t.nodes[n].parent].body.keys, t.lo[n], i);
  }

  /** Nothing of `q` is left when its only child goes. */
  ghost predicate Emptied<V>(b: Body<V>, i: nat)
    requires b.Inner? && i < |b.child| && |b.child| == |b.keys| + 1
  {
    Unlisted(b, i).keys == [] && Unlisted(b, i).child == [NULL]
  }

  /** A node whose interval starts where the hole's does is above the hole, so it starts where the
      hole's parent starts, and it reaches beyond the hole unless the parent is emptied. */
  lemma SameStart<V>(t: Tree<V>, n: Ptr, s: int, u: int, q: Ptr, i: nat, m: Ptr)
    requires HoleAt(t, n, s, u, q, i) && m in t.nodes && m != n && t.lo[m] == s
    ensures t.lo[q] == s && (i == 0 || (i == 1 && t.nodes[q].body.child[0] == NULL))
    ensures t.nodes[q].body.Height() <= t.nodes[m].body.Height()
    ensures t.nodes[q].body.Height() == t.nodes[m].body.Height() ==> m == q
    ensures !Emptied(t.nodes[q].body, i) ==> u < t.hi[m]
  {
    var p, b := Hole(n), t.nodes[q].body;
    assert NodeOk(t, n) && NodeOk(t, m);
    if b.child[0] != NULL && i > 0 { assert ChildOk(t, p, q, 0) && NodeOk(t, b.child[0]); }
    if t.nodes[m].body.Height() <= t.nodes[n].body.Height() {
      Nested(t, p, n, m, s);
      assert false;
    } else {
      Nested(t, p, m, n, s);
    }
    BelowUp(t, p, m, n, s);
    BelowNested(t, p, m, q, s);
    KeysInside(t, p, q);
    if i > 0 { assert b.keys[0] <= b.keys[i - 1]; }
    if i < |b.keys| { assert u == b.keys[i]; }
  }

  /** A node above `n` is above `n`'s parent or is that parent. */
  lemma {:induction false} BelowUp<V>(t: Tree<V>, p: Pending, m: Ptr, n: Ptr, k: int)
    requires Inv(t, p) && !p.Split? && Contains(t, m, k) && Contains(t, n, k) && m != n && Below(t, p, m, n, k)
    ensures n != t.root && Contains(t, t.nodes[n].parent, k) && Below(t, p, m, t.nodes[n].parent, k)
    decreases t.nodes[m].body.Height()
  {
    var c := Step(t, p, m, k);
    if c != n { BelowUp(t, p, c, n, k); }
  }

  // ----- the hole is closed at its parent -----

  ghost predicate Closable<V>(t: Tree<V>, n: Ptr, s: int, u: int, q: Ptr, i: nat) {
    HoleAt(t, n, s, u, q, i) && !Emptied(t.nodes[q].body, i)
  }

  ghost function Closed<V>(t: Tree<V>, n: Ptr, s: int, u: int, q: Ptr, i: nat): (t': Tree<V>)
    requires HoleAt(t, n, s, u, q, i)
    ensures Domains(t') && t'.nodes.Keys == t.nodes.Keys - {n} && t'.root == t.root
  {
    Swapped(Dropped(t, n, q, i), s, u)
  }

  lemma SwappedAt<V>(t: Tree<V>, s: int, u: int, m: Ptr)
    requires Domains(t) && m in t.nodes
    ensures m in Swapped(t, s, u).nodes
    ensures Swapped(t, s, u).lo[m] == Swap(s, u, t.lo[m]) && Swapped(t, s, u).hi[m] == Swap(s, u, t.hi[m])
    ensures Swapped(t, s, u).nodes[m].body.Height() == t.nodes[m].body.Height()
  {
    hide Swap;
  }

  lemma DroppedInterval<V>(t: Tree<V>, n: Ptr, s: int, u: int, q: Ptr, i: nat, m: Ptr)
    requires HoleAt(t, n, s, u, q, i) && m in t.nodes && m != n
    ensures var d := Dropped(t, n, q, i); m in d.nodes && d.lo[m] == t.lo[m] && d.hi[m] == t.hi[m]
  {
    hide Inv, DownOk, ChildOk, Unlisted;
  }

  lemma DroppedHeight<V>(t: Tree<V>, n: Ptr, s: int, u: int, q: Ptr, i: nat, m: Ptr)
    requires HoleAt(t, n, s, u, q, i) && m in t.nodes && m != n
    ensures var d := Dropped(t, n, q, i); m in d.nodes && d.nodes[m].body.Height() == t.nodes[m].body.Height()
  {
    hide Inv, DownOk, ChildOk, RemoveIndex;
  }

  lemma ClosedBounds<V>(t: Tree<V>, n: Ptr, s: int, u: int, q: Ptr, i: nat, m: Ptr)
    requires HoleAt(t, n, s, u, q, i) && m in t.nodes && m != n
    ensures var c := Closed(t, n, s, u, q, i);
      m in c.nodes && c.lo[m] == Swap(s, u, t.lo[m]) && c.hi[m] == Swap(s, u, t.hi[m])
  {
    DroppedInterval(t, n, s, u, q, i, m);
    SwappedAt(Dropped(t, n, q, i), s, u, m);
    hide Inv, DownOk, ChildOk, Dropped, Swapped, Swap;
  }

  lemma ClosedLink<V>(t: Tree<V>, n: Ptr, s: int, u: int, q: Ptr, i: nat, m: Ptr)
    requires HoleAt(t, n, s, u, q, i) && m in t.nodes && m != n
    ensures var c := Closed(t, n, s, u, q, i); m in c.nodes && c.nodes[m].parent == t.nodes[m].parent
  {
    hide Inv, DownOk, ChildOk, SwapBody, Unlisted, Swap;
  }

  lemma ClosedHeight<V>(t: Tree<V>, n: Ptr, s: int, u: int, q: Ptr, i: nat, m: Ptr)
    requires HoleAt(t, n, s, u, q, i) && m in t.nodes && m != n
    ensures var c := Closed(t, n, s, u, q, i); m in c.nodes && c.nodes[m].body.Height() == t.nodes[m].body.Height()
  {
    DroppedHeight(t, n, s, u, q, i, m);
    SwappedAt(Dropped(t, n, q, i), s, u, m);
    hide Inv, DownOk, ChildOk, Dropped, Swapped, Swap;
  }

  lemma CloseNode<V>(t: Tree<V>, n: Ptr, s: int, u: int, q: Ptr, i: nat, m: Ptr)
    requires Closable(t, n, s, u, q, i) && m in t.nodes && m != n
    ensures NodeOk(Closed(t, n, s, u, q, i), m)
  {
    assert NodeOk(t, m) && NodeOk(t, n) && UpOk(t, Hole(n), t.root);
    if t.lo[m] == s { SameStart(t, n, s, u, q, i, m); }
    ClosedBounds(t, n, s, u, q, i, m);
    ClosedHeight(t, n, s, u, q, i, m);
    ClosedHeight(t, n, s, u, q, i, t.root);
    hide DownOk, UpOk, ChildOk, Inv, Closed;
  }

  lemma StillListed<V>(b: Body<V>, i: nat, j: nat)
    requires b.Inner? && i < |b.child| && |b.child| == |b.keys| + 1 && j < |b.child| && j != i
    ensures b.child[j] in Unlisted(b, i).child
  {
    var d := Unlisted(b, i);
    assert b.child[j] == d.child[if i > 0 && i < j then j - 1 else j];
  }

  lemma CloseUp<V>(t: Tree<V>, n: Ptr, s: int, u: int, q: Ptr, i: nat, m: Ptr)
    requires Closable(t, n, s, u, q, i) && m in t.nodes && m != n
    ensures UpOk(Closed(t, n, s, u, q, i), Done, m)
  {
    assert NodeOk(t, n) && NodeOk(t, m) && UpOk(t, Hole(n), m);
    ClosedNode(t, n, s, u, q, i, m);
    if m != t.root {
      ClosedNode(t, n, s, u, q, i, t.nodes[m].parent);
      if t.nodes[m].parent == q {
        var j := ChildIndex(t, Hole(n), m);
        StillListed(t.nodes[q].body, i, j);
      }
    }
    hide DownOk, ChildOk, Sorted, Dropped, Unlisted;
  }

  /** No other internode has both `s` and `u` as separators. */
  lemma SwapKeepsOrder<V>(t: Tree<V>, n: Ptr, s: int, u: int, q: Ptr, i: nat, m: Ptr)
    requires Closable(t, n, s, u, q, i) && m in t.nodes && m != n && m != q && t.nodes[m].body.Inner?
    ensures Sorted(SwapKeys(s, u, t.nodes[m].body.keys))
  {
    var b := t.nodes[m].body;
    assert DownOk(t, Hole(n), m) && NodeOk(t, n);
    forall j | 0 <= j < |b.keys| - 1 && b.keys[j] == s ensures u < b.keys[j + 1] {
      assert ChildOk(t, Hole(n), m, j + 1) && b.child[j + 1] != n;
      SameStart(t, n, s, u, q, i, b.child[j + 1]);
    }
    SwapSorted(b.keys, s, u);
  }

  lemma CloseDown<V>(t: Tree<V>, n: Ptr, s: int, u: int, q: Ptr, i: nat, m: Ptr)
    requires Closable(t, n, s, u, q, i) && m in t.nodes && m != n && m != q && t.nodes[m].body.Inner?
    ensures DownOk(Closed(t, n, s, u, q, i), Done, m)
  {
    var t', p := Closed(t, n, s, u, q, i), Hole(n);
    var b := t.nodes[m].body;
    assert DownOk(t, p, m) && NodeOk(t, n);
    SwapKeepsOrder(t, n, s, u, q, i, m);
    forall k | 0 <= k <= |b.keys| && (k == 0 ==> b.child[0] != NULL) ensures ChildOk(t', Done, m, k) {
      assert ChildOk(t, p, m, k) && b.child[k] != n;
    }
  }

  lemma SwapSorted(keys: seq<int>, s: int, u: int)
    requires Sorted(keys) && s < u
    requires forall j :: 0 <= j < |keys| - 1 && keys[j] == s ==> u < keys[j + 1]
    ensures Sorted(SwapKeys(s, u, keys))
  {
    forall i, j | 0 <= i < j < |keys| ensures SwapKeys(s, u, keys)[i] < SwapKeys(s, u, keys)[j] {
      assert keys[i] < keys[i + 1] <= keys[j];
    }
  }

  lemma SwapNothing(keys: seq<int>, s: int, u: int)
    requires forall j :: 0 <= j < |keys| ==> keys[j] != s
    ensures SwapKeys(s, u, keys) == keys
  {
  }

  /** The parent has no separator `s` once the hole's is gone. */
  lemma ParentAfter<V>(t: Tree<V>, n: Ptr, s: int, u: int, q: Ptr, i: nat)
    requires HoleAt(t, n, s, u, q, i)
    ensures var d := Unlisted(t.nodes[q].body, i);
      && Sorted(d.keys) && (forall j :: 0 <= j < |d.keys| ==> d.keys[j] != s)
      && Closed(t, n, s, u, q, i).nodes[q] == t.nodes[q].(body := d)
  {
    assert NodeOk(t, n);
    SwapNothing(Unlisted(t.nodes[q].body, i).keys, s, u);
  }

  /** The hole's siblings do not start where it does. */
  lemma Sibling<V>(t: Tree<V>, n: Ptr, s: int, u: int, q: Ptr, i: nat, k: nat)
    requires HoleAt(t, n, s, u, q, i) && k <= |t.nodes[q].body.keys| && k != i
    requires k == 0 ==> t.nodes[q].body.child[0] != NULL
    ensures var c := t.nodes[q].body.child[k]; c in t.nodes && c != n && t.lo[c] != s && ChildOk(t, Hole(n), q, k)
  {
    assert ChildOk(t, Hole(n), q, k) && NodeOk(t, n) && NodeOk(t, t.nodes[q].body.child[k]);
    hide Inv, NodeOk, UpOk;
  }

  /** What the parent's other children become. */
  lemma SiblingAfter<V>(t: Tree<V>, n: Ptr, s: int, u: int, q: Ptr, i: nat, k: nat)
    requires HoleAt(t, n, s, u, q, i) && k <= |t.nodes[q].body.keys| && k != i
    requires k == 0 ==> t.nodes[q].body.child[0] != NULL
    ensures var t', c, b := Closed(t, n, s, u, q, i), t.nodes[q].body.child[k], t.nodes[q].body;
      && c in t'.nodes && c != t.root && t'.nodes[c].parent == q && t'.nodes[c].body.Height() < b.level
      && t'.lo[c] == t.lo[c] == (if k == 0 then t.lo[q] else b.keys[k - 1])
      && t'.hi[c] == Swap(s, u, if k == |b.keys| then t.hi[q] else b.keys[k])
  {
    var c := t.nodes[q].body.child[k];
    Sibling(t, n, s, u, q, i, k);
    ClosedBounds(t, n, s, u, q, i, c);
    ClosedHeight(t, n, s, u, q, i, c);
    ClosedLink(t, n, s, u, q, i, c);
    hide Closed, Inv, NodeOk, UpOk;
  }

  /** When the hole's parent keeps separators but no first child it starts at the hole, and the
      hole's end is its first separator. */
  lemma NeedsRedirect<V>(t: Tree<V>, n: Ptr, s: int, u: int, q: Ptr, i: nat)
    requires HoleAt(t, n, s, u, q, i) && !Emptied(t.nodes[q].body, i)
    ensures var d := Unlisted(t.nodes[q].body, i);
      if i <= 1 && |d.keys| > 0 && d.child[0] == NULL then t.lo[q] == s && d.keys[0] == u else t.lo[q] != s
    ensures Contains(t, q, s) && 0 <= t.lo[q]
  {
    KeysInside(t, Hole(n), q);
    assert NodeOk(t, n) && NodeOk(t, q);
    var b := t.nodes[q].body;
    if i > 0 {
      if b.child[0] != NULL { assert ChildOk(t, Hole(n), q, 0) && NodeOk(t, b.child[0]); }
      if i > 1 { assert b.keys[0] < b.keys[i - 1]; }
    }
  }

  /** What the parent's own interval becomes. */
  lemma ParentBounds<V>(t: Tree<V>, n: Ptr, s: int, u: int, q: Ptr, i: nat)
    requires Closable(t, n, s, u, q, i)
    ensures var c := Closed(t, n, s, u, q, i);
      c.lo[q] == Swap(s, u, t.lo[q]) && c.hi[q] == t.hi[q] && t.hi[q] != s && s < u
  {
    KeysInside(t, Hole(n), q);
    assert NodeOk(t, n);
  }

  /** The index that the parent's child `k` had before child `i` went. */
  function Before(i: nat, k: nat): nat {
    if i > 0 && i <= k then k + 1 else k
  }

  /** The bounds on both sides of a remaining child, before and after. */
  lemma ShiftedBounds(keys: seq<int>, d: seq<int>, hi: int, i: nat, k: nat, s: int, u: int)
    requires i <= |keys| && k <= |d| && s < u && hi != s && (i == 0 ==> k > 0)
    requires d == if i > 0 then RemoveIndex(keys, i - 1) else keys
    requires i > 0 ==> keys[i - 1] == s
    requires u == if i == |keys| then hi else keys[i]
    requires forall j :: 0 <= j < |d| ==> d[j] != s
    ensures k > 0 ==> keys[Before(i, k) - 1] == d[k - 1]
    ensures Swap(s, u, if Before(i, k) == |keys| then hi else keys[Before(i, k)]) == if k == |d| then hi else d[k]
  {
  }

  /** Where the remaining children were. */
  lemma ChildBefore<V>(b: Body<V>, i: nat, k: nat)
    requires b.Inner? && i < |b.child| && |b.child| == |b.keys| + 1
    requires k <= |Unlisted(b, i).keys| && (k == 0 ==> Unlisted(b, i).child[0] != NULL)
    ensures Before(i, k) <= |b.keys| && Before(i, k) != i && b.child[Before(i, k)] == Unlisted(b, i).child[k]
    ensures Before(i, k) == 0 ==> b.child[0] != NULL
    ensures i == 0 ==> k > 0
    ensures Unlisted(b, i).keys == if i > 0 then RemoveIndex(b.keys, i - 1) else b.keys
  {
  }

  lemma ChildBounds<V>(t: Tree<V>, n: Ptr, s: int, u: int, q: Ptr, i: nat, k: nat)
    requires Closable(t, n, s, u, q, i)
    requires var d := Unlisted(t.nodes[q].body, i); k <= |d.keys| && (k == 0 ==> d.child[0] != NULL)
    ensures var c, d := Closed(t, n, s, u, q, i), Unlisted(t.nodes[q].body, i);
      var m := d.child[k];
      && m in c.nodes && m != c.root && c.nodes[m].parent == q && c.nodes[m].body.Height() < d.level
      && c.lo[m] == (if k == 0 then c.lo[q] else d.keys[k - 1])
      && c.hi[m] == (if k == |d.keys| then c.hi[q] else d.keys[k])
  {
    var b, d := t.nodes[q].body, Unlisted(t.nodes[q].body, i);
    ChildBefore(b, i, k);
    SiblingAfter(t, n, s, u, q, i, Before(i, k));
    ParentAfter(t, n, s, u, q, i);
    ParentBounds(t, n, s, u, q, i);
    NeedsRedirect(t, n, s, u, q, i);
    ShiftedBounds(b.keys, d.keys, t.hi[q], i, k, s, u);
    hide Closed, Inv, DownOk, UpOk, NodeOk, Unlisted, Before, Swap;
  }

  lemma CloseParentChild<V>(t: Tree<V>, n: Ptr, s: int, u: int, q: Ptr, i: nat, k: nat)
    requires Closable(t, n, s, u, q, i)
    requires var d := Unlisted(t.nodes[q].body, i);
      k <= |d.keys| && (k == 0 ==> d.child[0] != NULL) && Closed(t, n, s, u, q, i).nodes[q].body == d
    ensures ChildOk(Closed(t, n, s, u, q, i), Done, q, k)
  {
    ChildBounds(t, n, s, u, q, i, k);
    hide Closed, Inv, DownOk, UpOk, NodeOk, Closable, HoleAt, Unlisted;
  }

  /** Everything about the parent but its children. */
  lemma CloseParentSelf<V>(t: Tree<V>, n: Ptr, s: int, u: int, q: Ptr, i: nat)
    requires Closable(t, n, s, u, q, i)
    ensures var c, d := Closed(t, n, s, u, q, i), Unlisted(t.nodes[q].body, i);
      && c.nodes[q].body == d && |d.keys| <= WIDTH && Sorted(d.keys) && 0 < d.level
      && (c.nodes[q].root <==> q == c.root)
      && (d.child[0] == NULL ==> 0 < |d.keys| && d.keys[0] == c.lo[q] && 0 < c.lo[q])
  {
    ParentAfter(t, n, s, u, q, i);
    ParentBounds(t, n, s, u, q, i);
    NeedsRedirect(t, n, s, u, q, i);
    var d := Unlisted(t.nodes[q].body, i);
    assert 0 < |d.keys| || d.child[0] != NULL;
    assert NodeOk(t, n);
    hide Closed, Inv, NodeOk, UpOk, ChildOk;
  }

  lemma CloseParent<V>(t: Tree<V>, n: Ptr, s: int, u: int, q: Ptr, i: nat)
    requires Closable(t, n, s, u, q, i)
    ensures DownOk(Closed(t, n, s, u, q, i), Done, q)
  {
    CloseParentSelf(t, n, s, u, q, i);
    hide Closed, Inv, NodeOk, UpOk, Unlisted;
    var c, d := Closed(t, n, s, u, q, i), Unlisted(t.nodes[q].body, i);
    forall k | 0 <= k <= |d.keys| && (k == 0 ==> d.child[0] != NULL) ensures ChildOk(c, Done, q, k) {
      CloseParentChild(t, n, s, u, q, i, k);
    }
  }

  lemma Close<V>(t: Tree<V>, n: Ptr, s: int, u: int, q: Ptr, i: nat)
    requires Closable(t, n, s, u, q, i)
    ensures Inv(Closed(t, n, s, u, q, i), Done)
  {
    hide NodeOk, UpOk, DownOk;
    var t' := Closed(t, n, s, u, q, i);
    forall m | m in t'.nodes ensures NodeOk(t', m) {
      CloseNode(t, n, s, u, q, i, m);
    }
    forall m | m in t'.nodes ensures UpOk(t', Done, m) {
      CloseUp(t, n, s, u, q, i, m);
    }
    forall m | m in t'.nodes && t'.nodes[m].body.Inner? ensures DownOk(t', Done, m) {
      if m == q { CloseParent(t, n, s, u, q, i); } else { CloseDown(t, n, s, u, q, i, m); }
    }
  }

  // ----- the hole moves up -----

  lemma HoleUpPend<V>(t: Tree<V>, n: Ptr, s: int, u: int, q: Ptr, i: nat)
    requires HoleAt(t, n, s, u, q, i) && Emptied(t.nodes[q].body, i)
    ensures t.lo[q] == s && t.hi[q] == u && q != t.root
    ensures PendOk(Dropped(t, n, q, i), Hole(q))
  {
    assert UpOk(t, Hole(n), t.root);
  }

  lemma HoleUpUp<V>(t: Tree<V>, n: Ptr, s: int, u: int, q: Ptr, i: nat, m: Ptr)
    requires HoleAt(t, n, s, u, q, i) && Emptied(t.nodes[q].body, i) && PendOk(Dropped(t, n, q, i), Hole(q))
    requires m in t.nodes && m != n
    ensures UpOk(Dropped(t, n, q, i), Hole(q), m) && NodeOk(Dropped(t, n, q, i), m)
  {
    assert NodeOk(t, m) && UpOk(t, Hole(n), m);
    hide DownOk, ChildOk, Sorted;
    if m != t.root && t.nodes[m].parent == q { HoleOnlyChild(t, n, s, u, q, i, m); }
  }

  /** A parent left with nothing is the next hole, with the same interval. */
  lemma HoleUp<V>(t: Tree<V>, n: Ptr, s: int, u: int, q: Ptr, i: nat)
    requires HoleAt(t, n, s, u, q, i) && Emptied(t.nodes[q].body, i)
    ensures t.lo[q] == s && t.hi[q] == u && q != t.root
    ensures Inv(Dropped(t, n, q, i), Hole(q))
  {
    var t' := Dropped(t, n, q, i);
    HoleUpPend(t, n, s, u, q, i);
    hide NodeOk, UpOk, DownOk;
    forall m | m in t'.nodes ensures NodeOk(t', m) && UpOk(t', Hole(q), m) {
      HoleUpUp(t, n, s, u, q, i, m);
    }
    forall m | m in t'.nodes && t'.nodes[m].body.Inner? && m != q ensures DownOk(t', Hole(q), m) {
      HoleUpDown(t, n, s, u, q, i, m);
    }
  }

  lemma HoleOnlyChild<V>(t: Tree<V>, n: Ptr, s: int, u: int, q: Ptr, i: nat, m: Ptr)
    requires HoleAt(t, n, s, u, q, i) && Emptied(t.nodes[q].body, i)
    requires m in t.nodes && m != t.root && t.nodes[m].parent == q
    ensures m == n
  {
    var j := ChildIndex(t, Hole(n), m);
    var b := t.nodes[q].body;
    if m != n {
      StillListed(b, i, j);
      assert false;
    }
  }

  lemma HoleUpDown<V>(t: Tree<V>, n: Ptr, s: int, u: int, q: Ptr, i: nat, m: Ptr)
    requires HoleAt(t, n, s, u, q, i) && m in t.nodes && m != n && m != q && t.nodes[m].body.Inner?
    requires PendOk(Dropped(t, n, q, i), Hole(q))
    ensures DownOk(Dropped(t, n, q, i), Hole(q), m)
  {
    assert DownOk(t, Hole(n), m);
    forall k | 0 <= k <= |t.nodes[m].body.keys| && (k == 0 ==> t.nodes[m].body.child[0] != NULL)
      ensures ChildOk(Dropped(t, n, q, i), Hole(q), m, k)
    {
      assert ChildOk(t, Hole(n), m, k);
    }
  }

  // ----- redirecting separators above -----

  /** Separators `s` between the levels `h` and `k` become `u`. */
  ghost function SwappedBetween<V>(nodes: map<Ptr, Node<V>>, h: nat, k: nat, s: int, u: int): map<Ptr, Node<V>> {
    map m | m in nodes ::
      if nodes[m].body.Inner? && h < nodes[m].body.level <= k then nodes[m].(body := SwapBody(s, u, nodes[m].body))
        else nodes[m]
  }

  /** The stored internodes above level `h` are those of the tree. */
  ghost predicate MatchesAbove<V>(t: Tree<V>, p: Pending, nodes: map<Ptr, Node<V>>, h: nat) {
    && Inv(t, p) && !p.Split? && nodes.Keys <= t.nodes.Keys
    && (forall m :: m in t.nodes && t.nodes[m].body.Inner? && h < t.nodes[m].body.level ==> m in nodes && p != Hole(m))
    && (forall m :: m in nodes && nodes[m].body.Inner? && h < nodes[m].body.level ==> nodes[m] == t.nodes[m])
    && (forall m ::
        m in nodes ==> nodes[m].body.Height() == t.nodes[m].body.Height() && nodes[m].parent == t.nodes[m].parent)
  }

  /** Among the internodes between a node `w` and its parent only the parent can have the start of
      `w` as a separator. */
  lemma SeparatorAt<V>(t: Tree<V>, p: Pending, w: Ptr, m: Ptr, j: nat)
    requires Inv(t, p) && !p.Split? && w in t.nodes && w != t.root && t.nodes[w].parent in t.nodes
    requires m in t.nodes && t.nodes[m].body.Inner? && p != Hole(m) && j < |t.nodes[m].body.keys|
    requires t.nodes[m].body.keys[j] == t.lo[w]
    requires t.nodes[w].body.Height() < t.nodes[m].body.level <= t.nodes[t.nodes[w].parent].body.Height()
    ensures m == t.nodes[w].parent
  {
    var s := t.lo[w];
    KeysInside(t, p, m);
    assert NodeOk(t, w) && NodeOk(t, m);
    Nested(t, p, m, w, s);
    BelowUp(t, p, m, w, s);
    BelowNested(t, p, m, t.nodes[w].parent, s);
  }

  /** No internode above a node that starts before `s` and goes beyond it has separator `s`. */
  lemma NoSeparatorAbove<V>(t: Tree<V>, p: Pending, w: Ptr, s: int, m: Ptr, j: nat)
    requires Inv(t, p) && !p.Split? && w in t.nodes && t.lo[w] < s < t.hi[w]
    requires m in t.nodes && t.nodes[m].body.Inner? && p != Hole(m) && j < |t.nodes[m].body.keys|
    requires t.nodes[w].body.Height() < t.nodes[m].body.level
    ensures t.nodes[m].body.keys[j] != s
  {
    if t.nodes[m].body.keys[j] == s {
      KeysInside(t, p, m);
      assert NodeOk(t, m);
      Nested(t, p, m, w, s);
      UpperIs(t.nodes[m].body.keys, s, j + 1);
      assert ChildOk(t, p, m, j + 1);
      BelowNested(t, p, Step(t, p, m, s), w, s);
      assert false;
    }
  }

  /** Between `n`, which starts at `a`, and its parent no other internode has separator `a`. */
  lemma RedirectPasses<V>(t: Tree<V>, p: Pending, nodes: map<Ptr, Node<V>>, h: nat, n: Ptr, a: int, r: int, m: Ptr)
    requires MatchesAbove(t, p, nodes, h) && n in t.nodes && n != t.root && t.lo[n] == a
    requires h <= t.nodes[n].body.Height()
    requires t.nodes[n].parent in t.nodes && m in nodes && m != t.nodes[n].parent && nodes[m].body.Inner?
    requires t.nodes[n].body.Height() < nodes[m].body.level <= t.nodes[t.nodes[n].parent].body.Height()
    ensures SwapBody(a, r, nodes[m].body) == nodes[m].body
  {
    hide UpOk, DownOk, NodeOk;
    forall j | 0 <= j < |nodes[m].body.keys| ensures nodes[m].body.keys[j] != a {
      if nodes[m].body.keys[j] == a { SeparatorAt(t, p, n, m, j); }
    }
    SwapNothing(nodes[m].body.keys, a, r);
  }

  /** The parent of `n` has `a` just left of `n`, or not at all. */
  lemma RedirectParent<V>(t: Tree<V>, p: Pending, w: Ptr, i: nat, a: int, r: int)
    requires Inv(t, p) && !p.Split? && w in t.nodes && t.nodes[w].body.Inner? && p != Hole(w) && DownOk(t, p, w)
    requires i < |t.nodes[w].body.child| && ChildOk(t, p, w, i) && t.lo[t.nodes[w].body.child[i]] == a
    ensures SwapKeys(a, r, t.nodes[w].body.keys)
      == if i > 0 then t.nodes[w].body.keys[i - 1 := r] else t.nodes[w].body.keys
  {
    var b := t.nodes[w].body;
    KeysInside(t, p, w);
    if i == 0 {
      assert NodeOk(t, b.child[0]);
      SwapNothing(b.keys, a, r);
    } else {
      assert SwapKeys(a, r, b.keys) == b.keys[i - 1 := r];
    }
  }

  /** One step of `redirect`: from `n`, which starts at `a`, to its parent. */
  lemma RedirectStep<V>(t: Tree<V>, p: Pending, nodes: map<Ptr, Node<V>>, h: nat, n: Ptr, a: int, r: int, i: nat)
    requires MatchesAbove(t, p, nodes, h) && n in t.nodes && n != t.root && t.lo[n] == a
    requires h <= t.nodes[n].body.Height()
    requires var w := t.nodes[n].parent;
      && w in t.nodes && t.nodes[w].body.Inner? && t.nodes[n].body.Height() < t.nodes[w].body.level && DownOk(t, p, w)
      && i < |t.nodes[w].body.child| && t.nodes[w].body.child[i] == n && ChildOk(t, p, w, i)
    ensures var w, k := t.nodes[n].parent, t.nodes[n].body.Height();
      var b := t.nodes[w].body;
      && w in nodes && SwappedBetween(nodes, h, k, a, r)[w] == t.nodes[w]
      && SwappedBetween(nodes, h, b.level, a, r)
        == if i > 0 then SwappedBetween(nodes, h, k, a, r)[w := t.nodes[w].(body := b.(keys := b.keys[i - 1 := r]))]
           else SwappedBetween(nodes, h, k, a, r)
  {
    var w, k := t.nodes[n].parent, t.nodes[n].body.Height();
    var b := t.nodes[w].body;
    RedirectParent(t, p, w, i, a, r);
    hide Inv, DownOk, ChildOk;
    assert w in nodes && nodes[w] == t.nodes[w];
    forall m | m in nodes && m != w && nodes[m].body.Inner? && k < nodes[m].body.level <= b.level
      ensures SwapBody(a, r, nodes[m].body) == nodes[m].body
    {
      RedirectPasses(t, p, nodes, h, n, a, r, m);
    }
  }

  /** The parent that `redirect` finds for `n`, and where it lists `n`. */
  lemma RedirectUp<V>(t: Tree<V>, p: Pending, n: Ptr, k: Ikey) returns (i: nat)
    requires Inv(t, p) && !p.Split? && Contains(t, n, k) && 0 < t.lo[n]
    ensures n != t.root && t.nodes[n].body.Height() < t.nodes[t.root].body.Height()
    ensures var w := t.nodes[n].parent;
      && w in t.nodes && t.nodes[w].body.Inner? && p != Hole(w) && t.nodes[n].body.Height() < t.nodes[w].body.level
      && DownOk(t, p, w)
      && t.nodes[w].body.level <= t.nodes[t.root].body.Height()
      && i < |t.nodes[w].body.child| && t.nodes[w].body.child[i] == n && ChildOk(t, p, w, i)
      && Contains(t, w, k) && i == Upper(t.nodes[w].body.keys, k)
      && (t.lo[w] == t.lo[n] || i > 1 || (i == 1 && t.nodes[w].body.child[0] != NULL))
  {
    assert UpOk(t, p, t.root);
    i := ChildIndex(t, p, n);
    var w := t.nodes[n].parent;
    KeysInside(t, p, w);
    assert NodeOk(t, w);
    UpperIs(t.nodes[w].body.keys, k, i);
  }

  lemma SwappedBetweenKeys<V>(nodes: map<Ptr, Node<V>>, h: nat, k: nat, s: int, u: int)
    ensures var r := SwappedBetween(nodes, h, k, s, u);
      r.Keys == nodes.Keys && forall m ::
        m in nodes ==> r[m].parent == nodes[m].parent && r[m].body.Height() == nodes[m].body.Height()
  {
  }

  lemma RedirectStart<V>(t: Tree<V>, p: Pending, nodes: map<Ptr, Node<V>>, n: Ptr, a: int, r: int)
    requires n in t.nodes && MatchesAbove(t, p, nodes, t.nodes[n].body.Height())
    ensures SwappedBetween(nodes, t.nodes[n].body.Height(), t.nodes[n].body.Height(), a, r) == nodes
    ensures t.root in t.nodes && t.nodes[n].body.Height() <= t.nodes[t.root].body.Height()
  {
    assert NodeOk(t, n);
  }

  /** `redirect` stops at an internode that starts before `a`. */
  lemma RedirectStops<V>(t: Tree<V>, p: Pending, w: Ptr, i: nat, a: int)
    requires Inv(t, p) && !p.Split? && w in t.nodes && t.nodes[w].body.Inner? && p != Hole(w) && DownOk(t, p, w)
    requires 0 < i < |t.nodes[w].body.child| && t.nodes[w].body.keys[i - 1] == a
    requires !(i == 1 && t.nodes[w].body.child[0] == NULL)
    ensures t.lo[w] < a < t.hi[w]
  {
    KeysInside(t, p, w);
    if i == 1 {
      assert ChildOk(t, p, w, 0) && NodeOk(t, t.nodes[w].body.child[0]);
    } else {
      assert t.lo[w] <= t.nodes[w].body.keys[0] < t.nodes[w].body.keys[i - 1];
    }
  }

  /** `redirect` may stop at `w`: no internode higher up has separator `a`. */
  lemma RedirectEnd<V>(t: Tree<V>, p: Pending, nodes: map<Ptr, Node<V>>, h: nat, w: Ptr, a: int, r: int, k: nat)
    requires MatchesAbove(t, p, nodes, h) && w in t.nodes && t.lo[w] < a < t.hi[w] && h <= t.nodes[w].body.Height() <= k
    ensures SwappedBetween(nodes, h, t.nodes[w].body.Height(), a, r) == SwappedBetween(nodes, h, k, a, r)
  {
    forall m | m in nodes && nodes[m].body.Inner? && t.nodes[w].body.Height() < nodes[m].body.level
      ensures SwapBody(a, r, nodes[m].body) == nodes[m].body
    {
      forall j | 0 <= j < |nodes[m].body.keys| ensures nodes[m].body.keys[j] != a {
        NoSeparatorAbove(t, p, w, a, m, j);
      }
      SwapNothing(nodes[m].body.keys, a, r);
    }
  }

  /** Replacing a separator by itself changes nothing. */
  lemma RedirectNothing<V>(nodes: map<Ptr, Node<V>>, h: nat, k: nat, a: int)
    ensures SwappedBetween(nodes, h, k, a, a) == nodes
  {
    forall m | m in nodes ensures SwapBody(a, a, nodes[m].body) == nodes[m].body {
      if nodes[m].body.Inner? { assert SwapKeys(a, a, nodes[m].body.keys) == nodes[m].body.keys; }
    }
  }

  /** No internode as low as the hole's parent has separator `s` but the parent, and if the parent
      does not start at `s` no other has it at all. */
  lemma NoSeparatorBelow<V>(t: Tree<V>, n: Ptr, s: int, u: int, q: Ptr, i: nat, m: Ptr)
    requires HoleAt(t, n, s, u, q, i) && m in t.nodes && m != n && m != q && t.nodes[m].body.Inner?
    requires t.nodes[m].body.level <= t.nodes[q].body.level || t.lo[q] != s
    ensures SwapBody(s, u, t.nodes[m].body) == t.nodes[m].body
  {
    var b := t.nodes[m].body;
    assert DownOk(t, Hole(n), m);
    forall j | 0 <= j < |b.keys| ensures b.keys[j] != s {
      assert ChildOk(t, Hole(n), m, j + 1) && b.child[j + 1] != n;
      if b.keys[j] == s { SameStart(t, n, s, u, q, i, b.child[j + 1]); }
    }
    SwapNothing(b.keys, s, u);
  }

  lemma ClosedNode<V>(t: Tree<V>, n: Ptr, s: int, u: int, q: Ptr, i: nat, m: Ptr)
    requires HoleAt(t, n, s, u, q, i) && m in t.nodes && m != n
    ensures var c := Closed(t, n, s, u, q, i).nodes[m];
      && c == (if m == q then t.nodes[q].(body := Unlisted(t.nodes[q].body, i))
          else t.nodes[m].(body := SwapBody(s, u, t.nodes[m].body)))
      && (t.nodes[m].body.Height() <= t.nodes[q].body.level || t.lo[q] != s ==> c == Dropped(t, n, q, i).nodes[m])
  {
    ParentAfter(t, n, s, u, q, i);
    hide DownOk, ChildOk, NodeOk, UpOk, Sorted;
    if m != q && t.nodes[m].body.Inner? && (t.nodes[m].body.Height() <= t.nodes[q].body.level || t.lo[q] != s) {
      NoSeparatorBelow(t, n, s, u, q, i, m);
    }
  }

  lemma RedirectClosesAt<V>(t: Tree<V>, n: Ptr, s: int, u: int, q: Ptr, i: nat, m: Ptr)
    requires HoleAt(t, n, s, u, q, i) && m in t.nodes && m != n
    ensures SwappedBetween(Dropped(t, n, q, i).nodes, t.nodes[q].body.level, t.nodes[t.root].body.Height(), s, u)[m]
      == Closed(t, n, s, u, q, i).nodes[m]
  {
    ClosedNode(t, n, s, u, q, i, m);
    assert NodeOk(t, m);
    hide DownOk, ChildOk, UpOk, Sorted, Closed;
  }

  /** Dropping the hole and redirecting above its parent closes it; dropping it alone does if the
      parent starts before the hole. */
  lemma RedirectCloses<V>(t: Tree<V>, n: Ptr, s: int, u: int, q: Ptr, i: nat)
    requires HoleAt(t, n, s, u, q, i)
    ensures SwappedBetween(Dropped(t, n, q, i).nodes, t.nodes[q].body.level, t.nodes[t.root].body.Height(), s, u)
      == Closed(t, n, s, u, q, i).nodes
    ensures t.lo[q] != s ==> Dropped(t, n, q, i).nodes == Closed(t, n, s, u, q, i).nodes
  {
    var d, c := Dropped(t, n, q, i).nodes, Closed(t, n, s, u, q, i).nodes;
    var r := SwappedBetween(d, t.nodes[q].body.level, t.nodes[t.root].body.Height(), s, u);
    hide Inv, Swapped, Dropped, Closed, SwappedBetween;
    assert r.Keys == d.Keys == c.Keys;
    forall m | m in d ensures r[m] == c[m] && (t.lo[q] != s ==> d[m] == c[m]) {
      RedirectClosesAt(t, n, s, u, q, i, m);
      ClosedNode(t, n, s, u, q, i, m);
    }
  }

  /** The hole's parent, before anything is done to it. */
  lemma HoleParentShape<V>(t: Tree<V>, n: Ptr, s: int, u: int, q: Ptr, i: nat)
    requires HoleAt(t, n, s, u, q, i)
    ensures |t.nodes[q].body.child| == |t.nodes[q].body.keys| + 1 && n in t.nodes && n != q && n != t.root
    ensures Domains(t) && t.root in t.nodes && t.nodes[q].body.level <= t.nodes[t.root].body.Height()
    ensures q == t.root ==> !Emptied(t.nodes[q].body, i)
  {
    assert DownOk(t, Hole(n), q) && NodeOk(t, q) && UpOk(t, Hole(n), t.root);
  }

  /** `redirect` may run above the hole's parent once the hole is dropped. */
  lemma DroppedMatches<V>(t: Tree<V>, n: Ptr, s: int, u: int, q: Ptr, i: nat)
    requires HoleAt(t, n, s, u, q, i)
    ensures MatchesAbove(t, Hole(n), Dropped(t, n, q, i).nodes, t.nodes[q].body.Height())
  {
  }

  // ----- a trivial chain collapses -----

  /** Internode `p0` with no separator gives its place under `g` to its only child `x`. */
  ghost function Collapsed<V>(t: Tree<V>, p0: Ptr, x: Ptr, g: Ptr, i: nat): (t': Tree<V>)
    requires Domains(t) && p0 in t.nodes && p0 != t.root && g in t.nodes && g != p0 && t.nodes[g].body.Inner?
    requires i < |t.nodes[g].body.child| && x in t.nodes && x != p0
    ensures Domains(t') && t'.nodes.Keys == t.nodes.Keys - {p0}
  {
    var b := t.nodes[g].body;
    Tree(t.nodes[g := t.nodes[g].(body := b.(child := b.child[i := x]))][x := t.nodes[x].(parent := g)] - {p0},
         t.lo - {p0}, t.hi - {p0}, t.root)
  }

  ghost predicate Collapsible<V>(t: Tree<V>, p0: Ptr, x: Ptr, g: Ptr, i: nat) {
    && Inv(t, Done) && p0 in t.nodes && p0 != t.root && t.nodes[p0].body.Inner?
    && t.nodes[p0].body.keys == [] && t.nodes[p0].body.child == [x] && x != NULL
    && g == t.nodes[p0].parent && g in t.nodes && t.nodes[g].body.Inner? && DownOk(t, Done, g)
    && i < |t.nodes[g].body.child| && t.nodes[g].body.child[i] == p0 && ChildOk(t, Done, g, i)
  }

  /** The internode that takes `x` in the place of `n`. */
  lemma CollapseParent<V>(t: Tree<V>, n: Ptr, x: Ptr, s: int) returns (i: nat)
    requires Inv(t, Done) && Contains(t, n, s) && n != t.root && t.nodes[n].body.Inner?
    requires t.nodes[n].body.keys == [] && t.nodes[n].body.child == [x] && x != NULL
    ensures Collapsible(t, n, x, t.nodes[n].parent, i)
    ensures i == Upper(t.nodes[t.nodes[n].parent].body.keys, s) && Contains(t, t.nodes[n].parent, s)
  {
    i := ChildIndex(t, Done, n);
    ParentContains(t, Done, n);
    UpperIs(t.nodes[t.nodes[n].parent].body.keys, s, i);
  }

  lemma OnlyChild<V>(t: Tree<V>, p0: Ptr, x: Ptr, g: Ptr, i: nat)
    requires Collapsible(t, p0, x, g, i)
    ensures x in t.nodes && x != t.root && x != g && x != p0 && g != p0
    ensures t.nodes[x].parent == p0 && t.lo[x] == t.lo[p0] && t.hi[x] == t.hi[p0]
    ensures t.nodes[x].body.Height() < t.nodes[p0].body.Height() < t.nodes[g].body.Height()
    ensures forall m :: m in t.nodes && m != t.root && t.nodes[m].parent == p0 ==> m == x
  {
    assert DownOk(t, Done, p0) && ChildOk(t, Done, p0, 0);
    forall m | m in t.nodes && m != t.root && t.nodes[m].parent == p0 ensures m == x {
      assert UpOk(t, Done, m);
    }
  }

  lemma CollapseUp<V>(t: Tree<V>, p0: Ptr, x: Ptr, g: Ptr, i: nat, m: Ptr)
    requires Collapsible(t, p0, x, g, i) && m in t.nodes && m != p0
    ensures x in t.nodes && x != p0 && g != p0
    ensures UpOk(Collapsed(t, p0, x, g, i), Done, m) && NodeOk(Collapsed(t, p0, x, g, i), m)
  {
    OnlyChild(t, p0, x, g, i);
    assert UpOk(t, Done, m) && NodeOk(t, m);
    var b := t.nodes[g].body;
    if m == x {
      assert b.child[i := x][i] == x;
    } else if m != t.root && t.nodes[m].parent == g {
      var j :| 0 <= j < |b.child| && b.child[j] == m;
      assert b.child[i := x][j] == m;
    }
  }

  lemma CollapseDown<V>(t: Tree<V>, p0: Ptr, x: Ptr, g: Ptr, i: nat, m: Ptr)
    requires Collapsible(t, p0, x, g, i) && m in t.nodes && m != p0 && t.nodes[m].body.Inner?
    ensures x in t.nodes && x != p0 && g != p0
    ensures DownOk(Collapsed(t, p0, x, g, i), Done, m)
  {
    OnlyChild(t, p0, x, g, i);
    assert DownOk(t, Done, m);
    var t', b := Collapsed(t, p0, x, g, i), t.nodes[m].body;
    forall k | 0 <= k <= |b.keys| && (k == 0 ==> b.child[0] != NULL) ensures ChildOk(t', Done, m, k) {
      assert ChildOk(t, Done, m, k);
      if m == g && k != i { assert b.child[k] != p0 by { assert NodeOk(t, p0); } }
    }
  }

  lemma Collapse<V>(t: Tree<V>, p0: Ptr, x: Ptr, g: Ptr, i: nat)
    requires Collapsible(t, p0, x, g, i)
    ensures x in t.nodes && x != p0 && g != p0
    ensures Inv(Collapsed(t, p0, x, g, i), Done)
  {
    OnlyChild(t, p0, x, g, i);
    hide NodeOk, UpOk, DownOk;
    var t' := Collapsed(t, p0, x, g, i);
    forall m | m in t'.nodes ensures UpOk(t', Done, m) && NodeOk(t', m) {
      CollapseUp(t, p0, x, g, i, m);
    }
    forall m | m in t'.nodes && t'.nodes[m].body.Inner? ensures DownOk(t', Done, m) {
      CollapseDown(t, p0, x, g, i, m);
    }
  }

  // ----- a root without separators -----

  /** The only child of a root internode without separators is the root in its place
      (masstree_remove.hh, `gc_layer`). */
  ghost function RootDropped<V>(t: Tree<V>, c: Ptr): (t': Tree<V>)
    requires Domains(t) && c in t.nodes && c != t.root
    ensures Domains(t') && t'.nodes.Keys == t.nodes.Keys - {t.root}
  {
    Tree(t.nodes[c := Node(NULL, true, t.nodes[c].body)] - {t.root}, t.lo - {t.root}, t.hi - {t.root}, c)
  }

  ghost predicate RootChild<V>(t: Tree<V>, c: Ptr) {
    && Inv(t, Done) && t.nodes[t.root].body.Inner? && t.nodes[t.root].body.keys == []
    && c in t.nodes && c != t.root && c != NULL && t.nodes[t.root].body.child == [c]
    && t.nodes[c].parent == t.root && t.lo[c] == 0 && t.hi[c] == TOP
    && t.nodes[c].body.Height() < t.nodes[t.root].body.Height()
  }

  lemma RootHasChild<V>(t: Tree<V>)
    requires Inv(t, Done) && t.nodes[t.root].body.Inner? && t.nodes[t.root].body.keys == []
    ensures |t.nodes[t.root].body.child| == 1 && RootChild(t, t.nodes[t.root].body.child[0])
  {
    assert DownOk(t, Done, t.root) && UpOk(t, Done, t.root);
    assert ChildOk(t, Done, t.root, 0);
  }

  lemma RootDroppedNode<V>(t: Tree<V>, c: Ptr, n: Ptr)
    requires RootChild(t, c) && n in t.nodes && n != t.root
    ensures NodeOk(RootDropped(t, c), n) && UpOk(RootDropped(t, c), Done, n)
  {
    assert NodeOk(t, n) && UpOk(t, Done, n);
    if t.nodes[n].body.Height() > t.nodes[c].body.Height() {
      Nested(t, Done, n, c, t.lo[n]);
      BelowUp(t, Done, n, c, t.lo[n]);
      BelowNested(t, Done, n, t.root, t.lo[n]);
      assert false;
    }
  }

  lemma RootDroppedDown<V>(t: Tree<V>, c: Ptr, n: Ptr)
    requires RootChild(t, c) && n in t.nodes && n != t.root && t.nodes[n].body.Inner?
    ensures DownOk(RootDropped(t, c), Done, n)
  {
    var b := t.nodes[n].body;
    assert DownOk(t, Done, n);
    forall i | 0 <= i <= |b.keys| && (i == 0 ==> b.child[0] != NULL) ensures ChildOk(RootDropped(t, c), Done, n, i) {
      assert ChildOk(t, Done, n, i);
    }
  }

  lemma DropRoot<V>(t: Tree<V>, c: Ptr)
    requires RootChild(t, c)
    ensures Inv(RootDropped(t, c), Done) && SameLeaves(t, RootDropped(t, c))
  {
    var t' := RootDropped(t, c);
    hide NodeOk, UpOk, DownOk;
    forall n | n in t'.nodes ensures NodeOk(t', n) && UpOk(t', Done, n) {
      RootDroppedNode(t, c, n);
    }
    forall n | n in t'.nodes && t'.nodes[n].body.Inner? ensures DownOk(t', Done, n) {
      RootDroppedDown(t, c, n);
    }
  }
}
