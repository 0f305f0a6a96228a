/** Moving along the leaves of one layer (masstree_scan.hh, `find_retry`, `find_next` and
    `forward_scan_helper`): from a cursor to the first entry after the current key. */
module LayerScan {
  import opened NodeStore
  import opened PermList
  import opened LeafNode
  import opened TreeSplit
  import opened LeafChain
  import opened LayerTree
  import opened ScanOrder
  import opened ReverseOrder

  /** Position `i` of leaf `n`: no entry before it comes after `k`. */
  ghost predicate Cursor<V>(t: Tree<V>, n: Ptr, i: nat, k: EntryKey) {
    && Inv(t, Done) && LeavesOk(t) && n in t.nodes && t.nodes[n].body.Leaf? && LeafAtOk(t, n)
    && i <= t.nodes[n].body.size
    && (forall e :: e in ViewOf(t) && e.ikey < t.lo[n] ==> !Less(k, e))
    && forall j :: 0 <= j < i ==> !Less(k, Entries(t.nodes[n].body)[j].key)
  }

  /** What a leaf holds within its interval is what the layer holds there. */
  lemma HeldHere<V>(t: Tree<V>, n: Ptr, e: EntryKey) returns (j: nat)
    requires Inv(t, Done) && LeavesOk(t) && n in t.nodes && t.nodes[n].body.Leaf? && LeafAtOk(t, n)
    requires e in ViewOf(t) && t.lo[n] <= e.ikey < t.hi[n]
    ensures var s := Entries(t.nodes[n].body); j < |s| && s[j].key == e && s[j].val == Some(ViewOf(t)[e])
  {
    LookupIn(t, n, e);
    j := LowerPos(Entries(t.nodes[n].body), e);
  }

  lemma EntryHeld<V>(t: Tree<V>, n: Ptr, j: nat)
    requires Inv(t, Done) && LeavesOk(t) && n in t.nodes && t.nodes[n].body.Leaf? && LeafAtOk(t, n)
    requires j < t.nodes[n].body.size
    ensures var s := Entries(t.nodes[n].body)[j];
      t.lo[n] <= s.key.ikey < t.hi[n] && s.key in ViewOf(t) && s.val == Some(ViewOf(t)[s.key])
  {
    var s := Entries(t.nodes[n].body);
    LookupIn(t, n, s[j].key);
    GetAt(s, j);
  }

  /** Where a search for `k` ends. */
  lemma SeekCursor<V>(t: Tree<V>, n: Ptr, k: EntryKey)
    requires Inv(t, Done) && LeavesOk(t) && n in t.nodes && t.nodes[n].body.Leaf? && LeafAtOk(t, n) && t.lo[n] <= k.ikey
    ensures Cursor(t, n, LowerPos(Entries(t.nodes[n].body), k), k)
  {
  }

  lemma SkipEntry<V>(t: Tree<V>, n: Ptr, i: nat, k: EntryKey)
    requires Cursor(t, n, i, k) && i < t.nodes[n].body.size && !Less(k, Entries(t.nodes[n].body)[i].key)
    ensures Cursor(t, n, i + 1, k)
  {
  }

  lemma OrderedIndex<V>(s: seq<Slot<V>>, i: nat, j: nat)
    requires Ordered(s) && i < |s| && j < |s|
    ensures Less(s[j].key, s[i].key) ==> j < i
  {
  }

  /** What the method below reads from the leaf at the cursor. */
  lemma CursorShape<V>(t: Tree<V>, n: Ptr, i: nat, k: EntryKey)
    requires Cursor(t, n, i, k)
    ensures Domains(t) && LeafWf(t.nodes[n].body) && Ordered(Entries(t.nodes[n].body))
  {
  }

  /** The first entry at the cursor that comes after `k` is the next of all. */
  lemma FoundNext<V>(t: Tree<V>, n: Ptr, i: nat, k: EntryKey)
    requires Cursor(t, n, i, k) && i < t.nodes[n].body.size && Less(k, Entries(t.nodes[n].body)[i].key)
    ensures var s := Entries(t.nodes[n].body)[i];
      IsNext(ViewOf(t), k, s.key) && s.val == Some(ViewOf(t)[s.key]) && Cursor(t, n, i + 1, s.key)
      && t.lo[n] <= s.key.ikey < t.hi[n]
  {
    var s := Entries(t.nodes[n].body);
    var e := s[i].key;
    EntryHeld(t, n, i);
    forall x | x in ViewOf(t) && Less(k, x) ensures !Less(x, e) {
      if Less(x, e) {
        var j := HeldHere(t, n, x);
        OrderedIndex(s, i, j);
      }
    }
  }

  /** At the end of a leaf the cursor moves to the next leaf, or nothing is left. */
  lemma PastLeaf<V>(t: Tree<V>, n: Ptr, i: nat, k: EntryKey)
    requires Cursor(t, n, i, k) && i == t.nodes[n].body.size
    ensures var nx := t.nodes[n].body.next;
      if nx == NULL then NoneAfter(ViewOf(t), k)
      else nx in t.nodes && LeafWf(t.nodes[nx].body) && LeafAtOk(t, nx) && t.lo[n] < t.lo[nx]
           && Cursor(t, nx, LowerPos(Entries(t.nodes[nx].body), k), k)
  {
    assert LeafAtOk(t, n) && NodeOk(t, n);
    var nx := t.nodes[n].body.next;
    forall e | e in ViewOf(t) && e.ikey < t.hi[n] ensures !Less(k, e) {
      if t.lo[n] <= e.ikey {
        var j := HeldHere(t, n, e);
      }
    }
    if nx != NULL { assert LeafAtOk(t, nx); }
  }

  lemma PermShape<V>(b: Body<V>)
    requires LeafWf(b)
    ensures |b.perm| == WIDTH && forall j :: 0 <= j < b.size ==> b.perm[j] < WIDTH
  {
  }

  /** The leaves after `n`, and other nodes there. */
  ghost function LeavesBeyond<V>(t: Tree<V>, n: Ptr): set<Ptr>
    requires Domains(t) && n in t.nodes
  {
    set m | m in t.nodes && t.lo[n] < t.lo[m]
  }

  lemma LeavesBeyondLess<V>(t: Tree<V>, n: Ptr, m: Ptr)
    requires Domains(t) && n in t.nodes && m in t.nodes && t.lo[n] < t.lo[m]
    ensures |LeavesBeyond(t, m)| < |LeavesBeyond(t, n)|
  {
    assert m in LeavesBeyond(t, n) && m !in LeavesBeyond(t, m);
    ProperSubset(LeavesBeyond(t, m), LeavesBeyond(t, n) - {m});
  }

  lemma {:induction false} ProperSubset(a: set<Ptr>, b: set<Ptr>)
    requires a <= b
    ensures |a| <= |b|
    decreases a
  {
    if a != {} {
      var x :| x in a;
      ProperSubset(a - {x}, b - {x});
    }
  }

  /** The leaf responsible for a slice. */
  ghost predicate InLeaf<V>(l: Layer<V>, n: Ptr, x: Ikey)
    reads l
  {
    l.Valid() && Contains(l.T(), n, x) && l.nodes[n].body.Leaf? && LeafAtOk(l.T(), n)
  }

  /** The search of `find_initial` and `find_retry`: the entry for `k`, if there is one, and the cursor
      behind `k`. */
  method Seek<V>(l: Layer<V>, k: EntryKey) returns (n: Ptr, i: nat, p: Option<V>)
    requires l.Valid()
    ensures Cursor(l.T(), n, i, k) && InLeaf(l, n, k.ikey)
    ensures p == if k in l.View() then Some(l.View()[k]) else None
  {
    var found;
    n, i, found := l.Find(k);
    SeekCursor(l.T(), n, k);
    p := None;
    if found {
      var b := l.nodes[n].body;
      p := b.slots[b.perm[i]].val;
      assert Entries(b)[i] == b.slots[b.perm[i]];
      SkipEntry(l.T(), n, i, k);
      i := i + 1;
    }
  }

  /** The search in a leaf that the scan comes back to. */
  method SeekIn<V>(l: Layer<V>, n: Ptr, k: EntryKey) returns (i: nat)
    requires InLeaf(l, n, k.ikey)
    ensures Cursor(l.T(), n, i, k)
  {
    var b := l.nodes[n].body;
    var found;
    i, found := LowerBound(b.slots, b.perm, b.size, k);
    SeekCursor(l.T(), n, k);
  }

  /** `find_next`: skips entries up to `k`, goes on through the leaf list, and stops at the next entry. */
  method FindNext<V>(l: Layer<V>, n0: Ptr, i0: nat, k: EntryKey) returns (n: Ptr, i: nat, e: Option<(EntryKey, V)>)
    requires l.Valid() && Cursor(l.T(), n0, i0, k)
    ensures e == None ==> NoneAfter(l.View(), k)
    ensures e.Some? ==> IsNext(l.View(), k, e.value.0) && e.value.1 == l.View()[e.value.0]
    ensures e.Some? ==> 0 < i <= WIDTH && Cursor(l.T(), n, i, e.value.0) && InLeaf(l, n, e.value.0.ikey)
    ensures e.Some? ==> (n == n0 && i0 < i) || |LeavesBeyond(l.T(), n)| < |LeavesBeyond(l.T(), n0)|
  {
    hide LeavesOk, LeafAtOk, Less, NodeOk, UpOk, DownOk, Ordered, IsPerm;
    n, i := n0, i0;
    while true
      invariant Domains(l.T()) && Cursor(l.T(), n, i, k)
      invariant (n == n0 && i0 <= i) || |LeavesBeyond(l.T(), n)| < |LeavesBeyond(l.T(), n0)|
      decreases |LeavesBeyond(l.T(), n)|, l.nodes[n].body.size - i
    {
      var b := l.nodes[n].body;
      CursorShape(l.T(), n, i, k);
      PermShape(b);
      if i < b.size {
        var s := b.slots[b.perm[i]];
        assert s == Entries(b)[i];
        if Less(k, s.key) {
          FoundNext(l.T(), n, i, k);
          return n, i + 1, Some((s.key, s.val.value));
        }
        SkipEntry(l.T(), n, i, k);
        i := i + 1;
      } else {
        PastLeaf(l.T(), n, i, k);
        if b.next == NULL {
          return n, i, None;
        }
        LeavesBeyondLess(l.T(), n, b.next);
        n := b.next;
        CursorShape(l.T(), n, LowerPos(Entries(l.nodes[n].body), k), k);
        var found;
        i, found := LowerBound(l.nodes[n].body.slots, l.nodes[n].body.perm, l.nodes[n].body.size, k);
      }
    }
  }

  // ----- backwards -----

  /** Position `i` of leaf `n`, or -1: no entry after it comes before `k`. */
  ghost predicate BackCursor<V>(t: Tree<V>, n: Ptr, i: int, k: EntryKey) {
    && Inv(t, Done) && LeavesOk(t) && n in t.nodes && t.nodes[n].body.Leaf? && LeafAtOk(t, n)
    && -1 <= i < t.nodes[n].body.size
    && t.lo[n] <= k.ikey && (forall e :: e in ViewOf(t) && t.hi[n] <= e.ikey ==> !Less(e, k))
    && forall j :: 0 <= j < t.nodes[n].body.size && i < j ==> !Less(Entries(t.nodes[n].body)[j].key, k)
  }

  lemma BackSeek<V>(t: Tree<V>, n: Ptr, k: EntryKey)
    requires Inv(t, Done) && LeavesOk(t) && n in t.nodes && t.nodes[n].body.Leaf? && LeafAtOk(t, n)
    requires t.lo[n] <= k.ikey < t.hi[n]
    ensures BackCursor(t, n, LowerPos(Entries(t.nodes[n].body), k) - 1, k)
  {
    var s := Entries(t.nodes[n].body);
    var l := LowerPos(s, k);
    forall j | l <= j < |s| ensures !Less(s[j].key, k) {
      assert l < j ==> Less(s[l].key, s[j].key);
    }
  }

  /** The cursor at the end of the last leaf (`upper_bound_`). */
  lemma BackTop<V>(t: Tree<V>, n: Ptr, k: EntryKey)
    requires Inv(t, Done) && LeavesOk(t) && n in t.nodes && t.nodes[n].body.Leaf? && LeafAtOk(t, n) && t.hi[n] == TOP
    requires t.lo[n] <= k.ikey
    ensures BackCursor(t, n, t.nodes[n].body.size - 1, k)
  {
  }

  lemma BackSkip<V>(t: Tree<V>, n: Ptr, i: int, k: EntryKey)
    requires BackCursor(t, n, i, k) && 0 <= i && !Less(Entries(t.nodes[n].body)[i].key, k)
    ensures BackCursor(t, n, i - 1, k)
  {
  }

  lemma FoundPrev<V>(t: Tree<V>, n: Ptr, i: int, k: EntryKey)
    requires BackCursor(t, n, i, k) && 0 <= i && Less(Entries(t.nodes[n].body)[i].key, k)
    ensures var s := Entries(t.nodes[n].body)[i];
      IsPrev(ViewOf(t), k, s.key) && s.val == Some(ViewOf(t)[s.key]) && BackCursor(t, n, i - 1, s.key)
      && t.lo[n] <= s.key.ikey < t.hi[n]
  {
    var s := Entries(t.nodes[n].body);
    var e := s[i].key;
    EntryHeld(t, n, i);
    forall x | x in ViewOf(t) && Less(x, k) ensures !Less(e, x) {
      if Less(e, x) && t.lo[n] <= x.ikey < t.hi[n] {
        var j := HeldHere(t, n, x);
        OrderedIndex(s, j, i);
      }
    }
    forall j | i <= j < |s| ensures !Less(s[j].key, e) {
      OrderedIndex(s, i, j);
    }
  }

  /** At the front of a leaf the current key becomes the leaf's lower bound, and the cursor moves to the
      end of the leaf before; or nothing is left. */
  lemma BeforeLeaf<V>(t: Tree<V>, n: Ptr, k: EntryKey)
    requires BackCursor(t, n, -1, k)
    ensures var b := t.nodes[n].body;
      if b.prev == NULL then NoneBefore(ViewOf(t), k)
      else
        var bound := EntryKey(b.slots[0].key.ikey, 0);
        && b.prev in t.nodes && LeafWf(t.nodes[b.prev].body) && LeafAtOk(t, b.prev) && t.lo[b.prev] < t.lo[n]
        && bound.ikey == t.lo[n] == t.hi[b.prev] && t.nodes[b.prev].body.next == n
        && BackCursor(t, b.prev, t.nodes[b.prev].body.size - 1, bound)
        && LowerPos(Entries(t.nodes[b.prev].body), bound) == t.nodes[b.prev].body.size
        && forall e :: e in ViewOf(t) ==> (Less(e, bound) <==> Less(e, k))
  {
    var b := t.nodes[n].body;
    assert LeafAtOk(t, n) && NodeOk(t, n);
    forall e | e in ViewOf(t) && t.lo[n] <= e.ikey ensures !Less(e, k) {
      if e.ikey < t.hi[n] {
        var j := HeldHere(t, n, e);
      }
    }
    if b.prev != NULL {
      assert LeafAtOk(t, b.prev) && NodeOk(t, b.prev);
      LowerPosIs(Entries(t.nodes[b.prev].body), EntryKey(b.slots[0].key.ikey, 0), t.nodes[b.prev].body.size);
    }
  }

  /** `reverse_scan_helper::stable` goes right only past splits by other threads: the leaf that the
      current key was left in, or whose successor it bounds, stays. */
  lemma StablyThere<V>(t: Tree<V>, n: Ptr, k: EntryKey)
    requires Inv(t, Done) && LeavesOk(t) && n in t.nodes && t.nodes[n].body.Leaf? && LeafAtOk(t, n)
    requires k.ikey < t.hi[n] || (k.ikey == t.hi[n] && k.len == 0)
    ensures var nx := t.nodes[n].body.next;
      nx == NULL || (nx in t.nodes && LeafWf(t.nodes[nx].body)
        && var bound := t.nodes[nx].body.slots[0].key.ikey; k.ikey < bound || (k.ikey == bound && k.len == 0))
  {
    assert NodeOk(t, n);
    var nx := t.nodes[n].body.next;
    if nx != NULL { assert LeafAtOk(t, nx); }
  }

  /** Fewer leaves are left before it. */
  ghost function LeavesBefore<V>(t: Tree<V>, n: Ptr): set<Ptr>
    requires Domains(t) && n in t.nodes
  {
    set m | m in t.nodes && t.lo[m] < t.lo[n]
  }

  lemma LeavesBeforeLess<V>(t: Tree<V>, n: Ptr, m: Ptr)
    requires Domains(t) && n in t.nodes && m in t.nodes && t.lo[m] < t.lo[n]
    ensures |LeavesBefore(t, m)| < |LeavesBefore(t, n)|
  {
    assert m in LeavesBefore(t, n) && m !in LeavesBefore(t, m);
    ProperSubset(LeavesBefore(t, m), LeavesBefore(t, n) - {m});
  }

  /** The search of `find_initial` backwards: the entry for `k`, if there is one, and the cursor before
      `k`. */
  method SeekBack<V>(l: Layer<V>, k: EntryKey) returns (n: Ptr, i: int, p: Option<V>)
    requires l.Valid()
    ensures BackCursor(l.T(), n, i, k) && InLeaf(l, n, k.ikey)
    ensures p == if k in l.View() then Some(l.View()[k]) else None
  {
    var pos: int, found;
    n, pos, found := l.Find(k);
    BackSeek(l.T(), n, k);
    i := pos - 1;
    p := None;
    if found {
      var b := l.nodes[n].body;
      p := b.slots[b.perm[pos]].val;
    }
  }

  /** The search in a leaf that the scan comes back to. */
  method SeekBackIn<V>(l: Layer<V>, n: Ptr, k: EntryKey) returns (i: int)
    requires InLeaf(l, n, k.ikey)
    ensures BackCursor(l.T(), n, i, k)
  {
    StablyThere(l.T(), n, k);
    var b := l.nodes[n].body;
    var pos: int, found;
    pos, found := LowerBound(b.slots, b.perm, b.size, k);
    BackSeek(l.T(), n, k);
    i := pos - 1;
  }

  /** `find_retry` after `shift_clear_reverse`: the end of the last leaf. */
  method SeekTop<V>(l: Layer<V>) returns (n: Ptr, i: int)
    requires l.Valid()
    ensures BackCursor(l.T(), n, i, UPPER)
  {
    n := l.ReachLeaf(TOP - 1);
    assert LeafAtOk(l.T(), n) && NodeOk(l.T(), n);
    BackTop(l.T(), n, UPPER);
    i := l.nodes[n].body.size - 1;
  }

  lemma BackShape<V>(t: Tree<V>, n: Ptr, i: int, k: EntryKey)
    requires BackCursor(t, n, i, k)
    ensures Domains(t) && LeafWf(t.nodes[n].body) && Ordered(Entries(t.nodes[n].body)) && i < WIDTH
  {
  }

  lemma SamePrev<V>(w: imap<EntryKey, V>, k: EntryKey, k0: EntryKey)
    requires forall x :: x in w ==> (Less(x, k) <==> Less(x, k0))
    ensures NoneBefore(w, k) ==> NoneBefore(w, k0)
    ensures forall e :: IsPrev(w, k, e) ==> IsPrev(w, k0, e)
  {
  }

  lemma SlotsShape<V>(b: Body<V>)
    requires LeafWf(b)
    ensures b.Leaf? && |b.slots| == WIDTH && b.size <= WIDTH
    ensures forall i :: 0 <= i < b.size ==> b.perm[i] < WIDTH && Entries(b)[i] == b.slots[b.perm[i]]
  {
  }

  /** `reverse_scan_helper::advance`, `stable` and `lower`. */
  method PrevLeaf<V>(l: Layer<V>, n0: Ptr, k0: EntryKey) returns (n: Ptr, i: int, k: EntryKey)
    requires l.Valid() && BackCursor(l.T(), n0, -1, k0) && l.nodes[n0].body.prev != NULL
    ensures Domains(l.T()) && BackCursor(l.T(), n, i, k) && |LeavesBefore(l.T(), n)| < |LeavesBefore(l.T(), n0)|
    ensures forall x :: x in l.View() ==> (Less(x, k) <==> Less(x, k0))
  {
    hide LeavesOk, LeafAtOk, Less, NodeOk, UpOk, DownOk, Ordered, IsPerm;
    var b := l.nodes[n0].body;
    BackShape(l.T(), n0, -1, k0);
    BeforeLeaf(l.T(), n0, k0);
    LeavesBeforeLess(l.T(), n0, b.prev);
    k := EntryKey(b.slots[0].key.ikey, 0);
    n := b.prev;
    StablyThere(l.T(), n, k);
    var c := l.nodes[n].body;
    BackShape(l.T(), n, c.size - 1, k);
    PermShape(c);
    var pos: int, found;
    pos, found := LowerBound(c.slots, c.perm, c.size, k);
    i := if found then pos else pos - 1;
  }

  /** `find_next` backwards: skips entries from `k` on, goes on through the leaf list, and stops at the
      next entry. */
  method FindPrev<V>(l: Layer<V>, n0: Ptr, i0: int, k0: EntryKey) returns (n: Ptr, i: int, e: Option<(EntryKey, V)>)
    requires l.Valid() && BackCursor(l.T(), n0, i0, k0)
    ensures e == None ==> NoneBefore(l.View(), k0)
    ensures e.Some? ==> IsPrev(l.View(), k0, e.value.0) && e.value.1 == l.View()[e.value.0]
    ensures e.Some? ==> -1 <= i < WIDTH && BackCursor(l.T(), n, i, e.value.0) && InLeaf(l, n, e.value.0.ikey)
    ensures e.Some? ==> (n == n0 && i < i0) || |LeavesBefore(l.T(), n)| < |LeavesBefore(l.T(), n0)|
  {
    hide Inv, LeavesOk, LeafAtOk, Less, Ordered, IsPerm, IsPrev, NoneBefore, LeafWf;
    var k := k0;
    n, i := n0, i0;
    BackShape(l.T(), n, i, k);
    while true
      invariant Domains(l.T()) && BackCursor(l.T(), n, i, k)
      invariant (n == n0 && i <= i0) || |LeavesBefore(l.T(), n)| < |LeavesBefore(l.T(), n0)|
      invariant forall x :: x in l.View() ==> (Less(x, k) <==> Less(x, k0))
      decreases |LeavesBefore(l.T(), n)|, i + 1
    {
      var b := l.nodes[n].body;
      BackShape(l.T(), n, i, k);
      PermShape(b);
      SlotsShape(b);
      if 0 <= i {
        var s := b.slots[b.perm[i]];
        assert s == Entries(b)[i];
        if Less(s.key, k) {
          FoundPrev(l.T(), n, i, k);
          SamePrev(l.View(), k, k0);
          return n, i - 1, Some((s.key, s.val.value));
        }
        BackSkip(l.T(), n, i, k);
        i := i - 1;
      } else {
        BeforeLeaf(l.T(), n, k);
        SamePrev(l.View(), k, k0);
        if b.prev == NULL {
          return n, i, None;
        }
        n, i, k := PrevLeaf(l, n, k);
      }
    }
  }
}
