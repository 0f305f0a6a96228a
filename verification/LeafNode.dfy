/** One leaf: its entries in key order, search through the permutation, and the choice of a split
    point (masstree_struct.hh, ksearch.hh, masstree_split.hh). */
module LeafNode {
  import opened NodeStore
  import opened PermList

  /** The entries in key order. */
  function Active<V>(slots: seq<Slot<V>>, perm: seq<nat>, size: nat): (s: seq<Slot<V>>)
    requires |slots| == WIDTH && size <= |perm| && forall i :: 0 <= i < size ==> perm[i] < WIDTH
    ensures |s| == size
  {
    seq(size, i requires 0 <= i < size => slots[perm[i]])
  }

  ghost predicate LeafWf<V>(b: Body<V>) {
    b.Leaf? && |b.slots| == WIDTH && IsPerm(b.perm, WIDTH) && b.size <= WIDTH
  }

  ghost function Entries<V>(b: Body<V>): (s: seq<Slot<V>>)
    requires LeafWf(b)
    ensures |s| == b.size
  {
    Active(b.slots, b.perm, b.size)
  }

  ghost predicate Ordered<V>(s: seq<Slot<V>>) {
    forall i, j :: 0 <= i < j < |s| ==> Less(s[i].key, s[j].key)
  }

  ghost predicate Within<V>(s: seq<Slot<V>>, lo: int, hi: int) {
    forall i :: 0 <= i < |s| ==> lo <= s[i].key.ikey < hi && s[i].key.len <= 9 && s[i].val.Some?
  }

  /** A leaf whose interval is [lo, hi): slot 0 keeps the lower bound of every leaf but the first,
      whether or not the slot is in use. */
  ghost predicate LeafOk<V>(b: Body<V>, lo: int, hi: int) {
    LeafWf(b) && Ordered(Entries(b)) && Within(Entries(b), lo, hi) && (lo > 0 ==> b.slots[0].key.ikey == lo)
  }

  ghost predicate IsLower<V>(s: seq<Slot<V>>, k: EntryKey, i: nat) {
    i <= |s| && (forall j :: 0 <= j < i ==> Less(s[j].key, k)) && (i < |s| ==> !Less(s[i].key, k))
  }

  /** The number of entries below `k` (ksearch.hh, `key_lower_bound_by`). */
  ghost function LowerPos<V>(s: seq<Slot<V>>, k: EntryKey): (i: nat)
    ensures IsLower(s, k, i)
  {
    LowerPosExists(s, k);
    var i: nat :| IsLower(s, k, i);
    i
  }

  lemma LowerPosExists<V>(s: seq<Slot<V>>, k: EntryKey)
    ensures exists i: nat :: IsLower(s, k, i)
  {
    var i := 0;
    while i < |s| && Less(s[i].key, k)
      invariant i <= |s| && forall j :: 0 <= j < i ==> Less(s[j].key, k)
    {
      i := i + 1;
    }
    assert IsLower(s, k, i);
  }

  ghost function Get<V>(s: seq<Slot<V>>, k: EntryKey): Option<V> {
    var i := LowerPos(s, k);
    if i < |s| && s[i].key == k then s[i].val else None
  }

  /** `Get` finds an entry wherever it is. */
  lemma GetAt<V>(s: seq<Slot<V>>, i: nat)
    requires Ordered(s) && i < |s|
    ensures LowerPos(s, s[i].key) == i && Get(s, s[i].key) == s[i].val
  {
    var l := LowerPos(s, s[i].key);
    assert i < l ==> Less(s[i].key, s[i].key);
  }

  /** Nothing is found where no entry has the key. */
  lemma GetNone<V>(s: seq<Slot<V>>, k: EntryKey)
    requires forall i :: 0 <= i < |s| ==> s[i].key != k
    ensures Get(s, k) == None
  {
  }

  /** The binary search of `key_lower_bound_by`, through the permutation. */
  method LowerBound<V>(slots: seq<Slot<V>>, perm: seq<nat>, size: nat, k: EntryKey) returns (i: nat, found: bool)
    requires |slots| == WIDTH && IsPerm(perm, WIDTH) && size <= WIDTH
    requires Ordered(Active(slots, perm, size))
    ensures i == LowerPos(Active(slots, perm, size), k)
    ensures found <==> i < size && slots[perm[i]].key == k
  {
    ghost var s := Active(slots, perm, size);
    var l, r := 0, size;
    while l < r
      invariant 0 <= l <= r <= size
      invariant forall j :: 0 <= j < l ==> Less(s[j].key, k)
      invariant forall j :: r <= j < size ==> Less(k, s[j].key)
    {
      var m := (l + r) / 2;
      assert s[m] == slots[perm[m]];
      if Less(k, slots[perm[m]].key) {
        r := m;
      } else if k == slots[perm[m]].key {
        GetAt(s, m);
        return m, true;
      } else {
        l := m + 1;
      }
    }
    assert l < size ==> s[l] == slots[perm[l]];
    return l, false;
  }

  /** The linear search of `key_find_lower_bound_by`. */
  method FindLowerBound<V>(slots: seq<Slot<V>>, perm: seq<nat>, size: nat, k: EntryKey) returns (i: nat, found: bool)
    requires |slots| == WIDTH && IsPerm(perm, WIDTH) && size <= WIDTH
    requires Ordered(Active(slots, perm, size))
    ensures i == LowerPos(Active(slots, perm, size), k)
    ensures found <==> i < size && slots[perm[i]].key == k
  {
    ghost var s := Active(slots, perm, size);
    i := 0;
    while i < size
      invariant i <= size
      invariant forall j :: 0 <= j < i ==> Less(s[j].key, k)
    {
      assert s[i] == slots[perm[i]];
      if Less(k, slots[perm[i]].key) {
        break;
      } else if k == slots[perm[i]].key {
        GetAt(s, i);
        return i, true;
      }
      i := i + 1;
    }
    return i, false;
  }

  // ----- inserting and removing an entry -----

  function Inserted<V>(s: seq<Slot<V>>, i: nat, e: Slot<V>): (r: seq<Slot<V>>)
    requires i <= |s|
    ensures |r| == |s| + 1
    ensures forall k :: 0 <= k < |r| ==> r[k] == if k < i then s[k] else if k == i then e else s[k - 1]
  {
    s[..i] + [e] + s[i..]
  }

  lemma InsertedOrdered<V>(s: seq<Slot<V>>, e: Slot<V>)
    requires Ordered(s) && Get(s, e.key) == None && forall i :: 0 <= i < |s| ==> s[i].val.Some?
    ensures Ordered(Inserted(s, LowerPos(s, e.key), e))
  {
    var i := LowerPos(s, e.key);
    if i < |s| { assert Less(e.key, s[i].key); }
  }

  /** Inserting changes what is found for the new key and for no other. */
  lemma InsertedGet<V>(s: seq<Slot<V>>, i: nat, e: Slot<V>, k: EntryKey)
    requires i <= |s| && Ordered(Inserted(s, i, e)) && Ordered(s)
    ensures Get(Inserted(s, i, e), k) == if k == e.key then e.val else Get(s, k)
  {
    var r := Inserted(s, i, e);
    if k == e.key {
      GetAt(r, i);
    } else if j :| 0 <= j < |s| && s[j].key == k {
      GetAt(s, j);
      GetAt(r, if j < i then j else j + 1);
    } else {
      GetNone(s, k);
      GetNone(r, k);
    }
  }

  lemma RemovedGet<V>(s: seq<Slot<V>>, i: nat, k: EntryKey)
    requires i < |s| && Ordered(s)
    ensures Ordered(s[..i] + s[i + 1..])
    ensures Get(s[..i] + s[i + 1..], k) == if k == s[i].key then None else Get(s, k)
  {
    var r := s[..i] + s[i + 1..];
    assert s == Inserted(r, i, s[i]);
    assert forall j :: 0 <= j < |r| ==> r[j] == if j < i then s[j] else s[j + 1];
    if k == s[i].key { GetNone(r, k); } else { InsertedGet(r, i, s[i], k); }
  }

  /** A store over the payload of the entry at position `i`. */
  lemma ReplacedGet<V>(s: seq<Slot<V>>, i: nat, e: Slot<V>, k: EntryKey)
    requires i < |s| && Ordered(s) && s[i].key == e.key
    ensures Ordered(s[i := e]) && Get(s[i := e], k) == if k == e.key then e.val else Get(s, k)
  {
    if k == e.key {
      GetAt(s[i := e], i);
    } else if j :| 0 <= j < |s| && s[j].key == k {
      GetAt(s, j);
      GetAt(s[i := e], j);
    } else {
      GetNone(s, k);
      GetNone(s[i := e], k);
    }
  }

  /** Leaf `b'` holds what `b` holds, but `v` under `k`. */
  ghost predicate Stores<V>(b: Body<V>, b': Body<V>, k: EntryKey, v: Option<V>) {
    && LeafWf(b) && LeafWf(b') && b'.next == b.next && b'.prev == b.prev
    && forall j :: Get(Entries(b'), j) == if j == k then v else Get(Entries(b), j)
  }

  lemma ReplaceOk<V>(b: Body<V>, lo: int, hi: int, i: nat, k: EntryKey, v: V)
    requires LeafOk(b, lo, hi) && i < b.size && b.slots[b.perm[i]].key == k
    ensures var b' := b.(slots := b.slots[b.perm[i] := Slot(k, Some(v))]);
      LeafOk(b', lo, hi) && Stores(b, b', k, Some(v))
  {
    var s, e := Entries(b), Slot(k, Some(v));
    var b' := b.(slots := b.slots[b.perm[i] := e]);
    assert forall j :: 0 <= j < b.size && j != i ==> b.perm[j] != b.perm[i];
    assert Entries(b') == s[i := e] && s[i].key == k;
    forall j ensures Ordered(s[i := e]) && Get(Entries(b'), j) == if j == k then Some(v) else Get(s, j) {
      ReplacedGet(s, i, e, j);
    }
  }

  /** What `assign` and `finish_insert` make of a leaf with a free slot at the back. */
  function Finished<V>(b: Body<V>, i: nat, k: EntryKey, v: V): (b': Body<V>)
    requires b.Leaf? && |b.perm| == WIDTH && |b.slots| == WIDTH && b.perm[WIDTH - 1] < WIDTH && i < WIDTH
  {
    Leaf(b.slots[b.perm[WIDTH - 1] := Slot(k, Some(v))], InsertFromBack(b.perm, i), b.size + 1, b.next, b.prev)
  }

  lemma FinishedEntries<V>(b: Body<V>, i: nat, k: EntryKey, v: V)
    requires LeafWf(b) && b.size < WIDTH && i <= b.size
    ensures LeafWf(Finished(b, i, k, v)) && Entries(Finished(b, i, k, v)) == Inserted(Entries(b), i, Slot(k, Some(v)))
  {
    var b' := Finished(b, i, k, v);
    InsertFromBackPerm(b.perm, WIDTH, i);
    assert forall j :: 0 <= j < b.size ==> b.perm[j] != b.perm[WIDTH - 1];
    forall j | 0 <= j < b'.size ensures Entries(b')[j] == Inserted(Entries(b), i, Slot(k, Some(v)))[j] {
    }
  }

  lemma FinishOk<V>(b: Body<V>, lo: int, hi: int, i: nat, k: EntryKey, v: V)
    requires LeafOk(b, lo, hi) && b.size < WIDTH && lo <= k.ikey < hi && k.len <= 9
    requires Get(Entries(b), k) == None && i == LowerPos(Entries(b), k)
    requires b.perm[WIDTH - 1] == 0 && lo > 0 ==> k.ikey == lo
    ensures LeafOk(Finished(b, i, k, v), lo, hi) && Stores(b, Finished(b, i, k, v), k, Some(v))
  {
    var s, e, b' := Entries(b), Slot(k, Some(v)), Finished(b, i, k, v);
    FinishedEntries(b, i, k, v);
    InsertedOrdered(s, e);
    forall j ensures Get(Inserted(s, i, e), j) == if j == k then Some(v) else Get(s, j) {
      InsertedGet(s, i, e, j);
    }
    assert Within(Inserted(s, i, e), lo, hi);
  }

  // ----- splitting -----

  /** Entries of one ordered run with the same slice differ in length class, so ten is the most
      there can be. */
  lemma {:induction false} SameSlice(e: seq<EntryKey>, i: nat, j: nat)
    requires forall a, b :: 0 <= a < b < |e| ==> Less(e[a], e[b])
    requires i <= j < |e| && e[i].ikey == e[j].ikey
    ensures e[i].len + (j - i) <= e[j].len
    decreases j - i
  {
    if i < j {
      assert Less(e[i], e[j - 1]) || i == j - 1;
      assert Less(e[j - 1], e[j]);
      SameSlice(e, i, j - 1);
    }
  }

  /** Where `split_into` would like to split, with the new entry at position `p` of `0..width`. */
  function Preferred(width: nat, p: nat, leftmost: bool, rightmost: bool): nat {
    if p == 0 && leftmost then 1 else if p == width && rightmost then width else WIDTH / 2 + 1
  }

  /** The slice changes at position `j`. */
  predicate Changes(e: seq<EntryKey>, j: int) {
    0 < j < |e| && e[j - 1].ikey < e[j].ikey
  }

  function Distance(i: int, j: int): nat {
    if i < j then j - i else i - j
  }

  /** `mid` is the change of slice nearest to `want`, the later of two equally near. */
  ghost predicate Nearest(e: seq<EntryKey>, want: nat, mid: nat) {
    && Changes(e, mid)
    && forall j :: Changes(e, j) ==>
      Distance(mid, want) < Distance(j, want) || (Distance(mid, want) == Distance(j, want) && j <= mid)
  }

  ghost predicate Rising(e: seq<EntryKey>) {
    && (forall a, b :: 0 <= a < b < |e| ==> Less(e[a], e[b]))
    && (forall a :: 0 <= a < |e| ==> e[a].len <= 9)
  }

  /** The entries strictly between `l` and `r` share a slice, with `want` and its predecessor in the
      middle. */
  ghost predicate FlatAround(e: seq<EntryKey>, want: nat, l: int, r: int) {
    && l + 1 < want < r && r - want == want - 1 - l && want < |e|
    && forall j :: 0 <= j < |e| && l < j < r ==> e[j].ikey == e[want].ikey
  }

  lemma NearestThere(e: seq<EntryKey>, want: nat)
    requires Rising(e) && Changes(e, want)
    ensures Nearest(e, want, want)
  {
  }

  lemma NearestRight(e: seq<EntryKey>, want: nat, l: int, r: int)
    requires Rising(e) && FlatAround(e, want, l, r) && r < |e| && e[r].ikey != e[want].ikey
    ensures Nearest(e, want, r)
  {
    assert Less(e[r - 1], e[r]);
  }

  lemma NearestLeft(e: seq<EntryKey>, want: nat, l: int, r: int)
    requires Rising(e) && FlatAround(e, want, l, r) && 0 <= l && e[l].ikey != e[want].ikey
    requires r < |e| ==> e[r].ikey == e[want].ikey
    ensures Nearest(e, want, l + 1)
  {
    assert Less(e[l], e[l + 1]);
  }

  /** At most ten entries share a slice, so the search does not run out of both ends, */
  lemma FlatEnds(e: seq<EntryKey>, want: nat, l: int, r: int)
    requires Rising(e) && FlatAround(e, want, l, r) && WIDTH <= |e| <= WIDTH + 1
    ensures 0 <= l || r < |e|
  {
    if l < 0 && |e| <= r { SameSlice(e, 0, |e| - 1); }
  }

  /** nor does it get from either of the other two preferred points to the last position. */
  lemma FlatNotLast(e: seq<EntryKey>, want: nat, l: int)
    requires Rising(e) && FlatAround(e, want, l, |e| - 1) && WIDTH <= |e| <= WIDTH + 1
    ensures want != 1 && want != WIDTH / 2 + 1
  {
    if want == 1 || want == WIDTH / 2 + 1 { SameSlice(e, if l < 0 then 0 else l + 1, |e| - 2); }
  }

  /** `split_into`'s choice of `mid` among the `width + 1` entries there will be, with the new one
      at position `p`: the change of slice nearest to the preferred point. The last position is
      chosen for one reason only, an append with a new slice to the rightmost leaf. */
  method SplitPoint(e: seq<EntryKey>, p: nat, leftmost: bool, rightmost: bool) returns (mid: nat)
    requires WIDTH <= |e| <= WIDTH + 1 && p < |e| && Rising(e)
    ensures Nearest(e, Preferred(|e| - 1, p, leftmost, rightmost), mid)
    ensures mid == |e| - 1 <==> rightmost && p == |e| - 1 && Changes(e, |e| - 1)
  {
    hide Nearest;
    var width := |e| - 1;
    mid := WIDTH / 2 + 1;
    if p == 0 && leftmost {
      mid := 1;
    } else if p == width && rightmost {
      mid := width;
    }
    ghost var want := mid;
    var midIkey := e[mid].ikey;
    assert Less(e[mid - 1], e[mid]);
    if midIkey == e[mid - 1].ikey {
      hide Rising;
      var midl: int, midr: int := mid - 2, mid + 1;
      while true
        invariant mid == want && FlatAround(e, want, midl, midr)
        decreases (if midl < 0 then 0 else midl + 1) + (if width < midr then 0 else width + 1 - midr)
      {
        FlatEnds(e, want, midl, midr);
        if midr <= width && midIkey != e[midr].ikey {
          NearestRight(e, want, midl, midr);
          if midr == width { FlatNotLast(e, want, midl); }
          mid := midr;
          break;
        } else if midl >= 0 && midIkey != e[midl].ikey {
          NearestLeft(e, want, midl, midr);
          mid := midl + 1;
          break;
        }
        midl, midr := midl - 1, midr + 1;
      }
    } else {
      NearestThere(e, want);
    }
  }

  /** The keys there will be once `k` is inserted at position `i` (`ikey_after_insert`). */
  function KeysAfter<V>(b: Body<V>, i: nat, k: EntryKey): (e: seq<EntryKey>)
    requires b.Leaf? && |b.slots| == WIDTH && b.size <= |b.perm| && i <= b.size
    requires forall j :: 0 <= j < b.size ==> b.perm[j] < WIDTH
    ensures |e| == b.size + 1
  {
    seq(b.size + 1, j requires 0 <= j <= b.size =>
      if j < i then b.slots[b.perm[j]].key else if j == i then k else b.slots[b.perm[j - 1]].key)
  }

  lemma KeysAfterOrdered<V>(b: Body<V>, i: nat, k: EntryKey)
    requires LeafWf(b) && Ordered(Entries(b)) && (forall j :: 0 <= j < b.size ==> Entries(b)[j].val.Some?)
    requires Get(Entries(b), k) == None && i == LowerPos(Entries(b), k)
    ensures var e := KeysAfter(b, i, k); forall x, y :: 0 <= x < y < |e| ==> Less(e[x], e[y])
  {
    hide KeysAfter, Inserted, Get, LowerPos, Ordered, LeafWf, Entries;
    WfPerm(b);
    var s, e := Entries(b), KeysAfter(b, i, k);
    var r := Inserted(s, i, Slot(k, None));
    InsertedOrdered(s, Slot(k, None));
    KeysAfterAre(b, i, k);
    forall x, y | 0 <= x < y < |e| ensures Less(e[x], e[y]) {
      OrderedAt(r, x, y);
    }
  }

  lemma WfPerm<V>(b: Body<V>)
    requires LeafWf(b)
    ensures b.Leaf? && |b.slots| == WIDTH && b.size <= |b.perm| && forall j :: 0 <= j < b.size ==> b.perm[j] < WIDTH
  {
  }

  lemma OrderedAt<V>(s: seq<Slot<V>>, x: nat, y: nat)
    requires Ordered(s) && x < y < |s|
    ensures Less(s[x].key, s[y].key)
  {
  }

  lemma KeysAfterAre<V>(b: Body<V>, i: nat, k: EntryKey)
    requires LeafWf(b) && i <= b.size && forall j :: 0 <= j < b.size ==> b.perm[j] < WIDTH
    ensures var e, r := KeysAfter(b, i, k), Inserted(Entries(b), i, Slot(k, None));
      forall x :: 0 <= x < |e| ==> e[x] == r[x].key
  {
    hide IsPerm;
  }

  /** What slot `j` of the new right leaf is to hold. */
  ghost function RightSlot<V>(s: seq<Slot<V>>, i: nat, k: EntryKey, mid: nat, j: nat): Slot<V>
    requires mid + j <= |s| && i <= |s| && 0 < mid
  {
    if mid + j == i then Slot(k, None) else if mid + j < i then s[mid + j] else s[mid + j - 1]
  }

  /** The permutation of a new right leaf with `n` slots filled. The slot at position `c` goes to the
      back if it is reserved for the new entry (`c < n`). */
  function RightPerm(n: nat, c: nat): (perm: seq<nat>)
    requires n <= WIDTH && c <= n
    ensures |perm| == WIDTH
  {
    if c < n then RemoveToBack(MakeSorted(WIDTH, n), c) else MakeSorted(WIDTH, n)
  }

  lemma RightPermOk(n: nat, c: nat)
    requires n <= WIDTH && c <= n
    ensures IsPerm(RightPerm(n, c), WIDTH)
    ensures forall j :: 0 <= j < n && (c < n ==> j < n - 1) ==> RightPerm(n, c)[j] == if c <= j then j + 1 else j
    ensures c < n ==> RightPerm(n, c)[WIDTH - 1] == c
  {
    hide IsPerm;
    MakeSortedPerm(WIDTH, n);
    if c < n { RemoveToBackPerm(MakeSorted(WIDTH, n), WIDTH, c); }
  }

  lemma RightEntries<V>(s: seq<Slot<V>>, i: nat, k: EntryKey, mid: nat, slots: seq<Slot<V>>, perm: seq<nat>, size: nat)
    requires |slots| == WIDTH && |perm| == WIDTH && 0 < mid <= |s| <= WIDTH && i <= |s|
    requires forall j :: 0 <= j <= |s| - mid ==> slots[j] == RightSlot(s, i, k, mid, j)
    requires size == |s| + (if mid <= i then 0 else 1) - mid
    requires forall j :: 0 <= j < size ==> perm[j] == if mid <= i && i - mid <= j then j + 1 else j
    ensures Active(slots, perm, size) == s[if i < mid then mid - 1 else mid..]
  {
    var a, r := Active(slots, perm, size), s[if i < mid then mid - 1 else mid..];
    forall j | 0 <= j < size ensures a[j] == r[j] {
      assert slots[perm[j]] == RightSlot(s, i, k, mid, perm[j]);
    }
  }

  /** The copying loop of `split_into`: slots 0, 1, ... of the right leaf take the entries from `mid`
      on, one of them reserved for the new entry if it goes here. */
  method CopyRight<V>(b: Body<V>, i: nat, k: EntryKey, mid: nat) returns (slots: seq<Slot<V>>)
    requires LeafWf(b) && i <= b.size && 0 < mid <= b.size
    ensures |slots| == WIDTH
    ensures forall j :: 0 <= j <= b.size - mid ==> slots[j] == RightSlot(Entries(b), i, k, mid, j)
  {
    var width := b.size;
    slots := seq(WIDTH, _ => Slot(EntryKey(0, 0), None));
    var x, from := mid, if i < mid then mid - 1 else mid;
    while x <= width
      invariant mid <= x <= width + 1 && |slots| == WIDTH
      invariant from == if i < x then x - 1 else x
      invariant forall j :: 0 <= j < x - mid ==> slots[j] == RightSlot(Entries(b), i, k, mid, j)
    {
      if x == i {
        slots := slots[x - mid := Slot(k, None)];
      } else {
        slots := slots[x - mid := b.slots[b.perm[from]]];
        from := from + 1;
      }
      x := x + 1;
    }
  }

  /** The new right leaf. A slot reserved for the new entry is at the back of the permutation. */
  method FillRight<V>(b: Body<V>, i: nat, k: EntryKey, mid: nat) returns (br: Body<V>)
    requires LeafWf(b) && i <= b.size && 0 < mid <= b.size
    ensures LeafWf(br) && br.next == NULL && br.prev == NULL
    ensures Entries(br) == Entries(b)[if i < mid then mid - 1 else mid..]
    ensures br.slots[0].key == KeysAfter(b, i, k)[mid]
    ensures mid <= i ==> br.perm[WIDTH - 1] == i - mid && br.slots[i - mid].key == k
  {
    hide IsPerm, RightPerm, KeysAfter, RightSlot;
    var slots := CopyRight(b, i, k, mid);
    ReservedSlots(b, i, k, mid, slots);
    var n := b.size + 1 - mid;
    var c := if mid <= i then i - mid else n;
    RightPermOk(n, c);
    br := Leaf(slots, RightPerm(n, c), if c < n then n - 1 else n, NULL, NULL);
    RightEntries(Entries(b), i, k, mid, slots, br.perm, br.size);
  }

  lemma ReservedSlots<V>(b: Body<V>, i: nat, k: EntryKey, mid: nat, slots: seq<Slot<V>>)
    requires LeafWf(b) && i <= b.size && 0 < mid <= b.size && |slots| == WIDTH
    requires forall j :: 0 <= j <= b.size - mid ==> slots[j] == RightSlot(Entries(b), i, k, mid, j)
    ensures slots[0].key == KeysAfter(b, i, k)[mid]
    ensures mid <= i ==> slots[i - mid].key == k
  {
    assert forall j :: 0 <= j < b.size ==> b.perm[j] < WIDTH;
    hide IsPerm;
    if mid < i { EntryAfter(b, i, k, mid); } else if i < mid { EntryAfter(b, i, k, mid - 1); }
    assert KeysAfter(b, i, k)[i] == k;
    assert slots[0] == RightSlot(Entries(b), i, k, mid, 0);
    assert mid <= i ==> slots[i - mid] == RightSlot(Entries(b), i, k, mid, i - mid);
  }

  /** What stripping leaves of the left leaf (masstree_split.hh, `make_split`). */
  function StripLeft<V>(b: Body<V>, size: nat): (bl: Body<V>)
    requires b.Leaf? && |b.perm| == WIDTH && size <= b.size <= WIDTH
  {
    b.(size := size, perm := if b.size != WIDTH then Exchange(b.perm, size, WIDTH - 1) else b.perm)
  }

  lemma StripLeftOk<V>(b: Body<V>, size: nat)
    requires LeafWf(b) && size <= b.size && WIDTH - 1 <= b.size
    ensures LeafWf(StripLeft(b, size)) && Entries(StripLeft(b, size)) == Entries(b)[..size]
  {
    if b.size != WIDTH { ExchangePerm(b.perm, WIDTH, size, WIDTH - 1); }
  }

  /** If every slot is in use, the last entry is not in slot 0 of a leaf with a lower bound: then
      all fifteen entries would share the bound's slice. */
  lemma LastSlotNotBound<V>(b: Body<V>, lo: int, hi: int)
    requires LeafOk(b, lo, hi) && b.size == WIDTH && lo > 0
    ensures b.perm[WIDTH - 1] != 0
  {
    if b.perm[WIDTH - 1] == 0 {
      var s := Entries(b);
      var e := seq(WIDTH, j requires 0 <= j < WIDTH => s[j].key);
      assert s[WIDTH - 1] == b.slots[0];
      assert Less(s[0].key, s[WIDTH - 1].key);
      SameSlice(e, 0, WIDTH - 1);
    }
  }

  lemma LowerPosIs<V>(s: seq<Slot<V>>, k: EntryKey, i: nat)
    requires Ordered(s) && i <= |s|
    requires i > 0 ==> Less(s[i - 1].key, k)
    requires i < |s| ==> !Less(s[i].key, k)
    ensures LowerPos(s, k) == i
  {
    var l := LowerPos(s, k);
    if i < |s| { assert !Less(s[i].key, k); }
    assert l < i - 1 ==> Less(s[l].key, s[i - 1].key);
  }

  /** Cutting an ordered run where the slice changes cuts its lookups the same way. */
  lemma CutGet<V>(s: seq<Slot<V>>, m: nat, x: Ikey, k: EntryKey)
    requires Ordered(s) && m <= |s|
    requires forall i :: 0 <= i < m ==> s[i].key.ikey < x
    requires forall i :: m <= i < |s| ==> x <= s[i].key.ikey
    ensures Get(s, k) == if k.ikey < x then Get(s[..m], k) else Get(s[m..], k)
  {
    if j :| 0 <= j < |s| && s[j].key == k {
      GetAt(s, j);
      if j < m { GetAt(s[..m], j); } else { GetAt(s[m..], j - m); }
    } else {
      GetNone(s, k);
      GetNone(s[..m], k);
      GetNone(s[m..], k);
    }
  }

  /** The two halves of a split leaf hold what it held, cut at slice `x`. */
  ghost predicate Halves<V>(b: Body<V>, lo: int, x: int, hi: int, bl: Body<V>, br: Body<V>) {
    && LeafWf(b) && lo < x < hi && LeafOk(bl, lo, x) && LeafOk(br, x, hi)
    && forall k :: Get(Entries(b), k) == if k.ikey < x then Get(Entries(bl), k) else Get(Entries(br), k)
  }

  lemma HalvesOk<V>(b: Body<V>, lo: int, hi: int, m: nat, x: Ikey, bl: Body<V>, br: Body<V>)
    requires LeafOk(b, lo, hi) && m <= b.size && lo < x < hi
    requires forall j :: 0 <= j < m ==> Entries(b)[j].key.ikey < x
    requires forall j :: m <= j < b.size ==> x <= Entries(b)[j].key.ikey
    requires LeafWf(bl) && Entries(bl) == Entries(b)[..m] && bl.slots == b.slots
    requires LeafWf(br) && Entries(br) == Entries(b)[m..] && br.slots[0].key.ikey == x
    ensures Halves(b, lo, x, hi, bl, br)
  {
    forall k ensures Get(Entries(b), k) == if k.ikey < x then Get(Entries(bl), k) else Get(Entries(br), k) {
      CutGet(Entries(b), m, x, k);
    }
  }

  lemma KeysAfterFit<V>(b: Body<V>, lo: int, hi: int, i: nat, k: EntryKey)
    requires LeafOk(b, lo, hi) && Get(Entries(b), k) == None && i == LowerPos(Entries(b), k)
    requires lo <= k.ikey < hi && k.len <= 9
    ensures LeafWf(b)
    ensures var e := KeysAfter(b, i, k);
      && (forall x, y :: 0 <= x < y < |e| ==> Less(e[x], e[y]))
      && (forall j :: 0 <= j < |e| ==> lo <= e[j].ikey < hi && e[j].len <= 9)
  {
    var s, e := Entries(b), KeysAfter(b, i, k);
    KeysAfterOrdered(b, i, k);
    forall j | 0 <= j < |e| ensures lo <= e[j].ikey < hi && e[j].len <= 9 {
      if j != i { assert e[j] == s[if j < i then j else j - 1].key; }
    }
  }

  lemma SideOf(e: seq<EntryKey>, mid: nat, j: nat)
    requires forall x, y :: 0 <= x < y < |e| ==> Less(e[x], e[y])
    requires 0 < mid < |e| && j < |e| && e[mid - 1].ikey < e[mid].ikey
    ensures e[j].ikey < e[mid].ikey <==> j < mid
  {
    assert j < mid - 1 ==> Less(e[j], e[mid - 1]);
    assert mid < j ==> Less(e[mid], e[j]);
  }

  lemma EntryAfter<V>(b: Body<V>, i: nat, k: EntryKey, j: nat)
    requires LeafWf(b) && i <= b.size && j < b.size
    ensures Entries(b)[j].key == KeysAfter(b, i, k)[if j < i then j else j + 1]
  {
  }

  /** The entries before and after the cut, by slice. */
  lemma CutSides<V>(b: Body<V>, lo: int, hi: int, i: nat, k: EntryKey, mid: nat)
    requires LeafOk(b, lo, hi) && Get(Entries(b), k) == None && i == LowerPos(Entries(b), k)
    requires lo <= k.ikey < hi && k.len <= 9 && 0 < mid <= b.size
    requires KeysAfter(b, i, k)[mid - 1].ikey < KeysAfter(b, i, k)[mid].ikey
    ensures var x, cut := KeysAfter(b, i, k)[mid].ikey, if i < mid then mid - 1 else mid;
      && lo < x < hi && (k.ikey < x <==> i < mid)
      && (forall j :: 0 <= j < b.size ==> (Entries(b)[j].key.ikey < x <==> j < cut))
  {
    var e, cut := KeysAfter(b, i, k), if i < mid then mid - 1 else mid;
    KeysAfterFit(b, lo, hi, i, k);
    assert e[i] == k;
    hide LeafOk, KeysAfter;
    SideOf(e, mid, i);
    SideOf(e, mid, 0);
    forall j | 0 <= j < b.size ensures Entries(b)[j].key.ikey < e[mid].ikey <==> j < cut {
      EntryAfter(b, i, k, j);
      SideOf(e, mid, if j < i then j else j + 1);
    }
  }

  /** The new entry goes left: its slot there is not the bound's. */
  ghost predicate LeftTakes<V>(bl: Body<V>, lo: int, x: int, i: nat, k: EntryKey) {
    LeafWf(bl) && k.ikey < x && bl.size < WIDTH && i == LowerPos(Entries(bl), k) && (lo > 0 ==> bl.perm[WIDTH - 1] != 0)
  }

  /** The new entry goes right: it may fill the bound's slot if it has the bound's slice. */
  ghost predicate RightTakes<V>(bl: Body<V>, br: Body<V>, x: int, i: nat, k: EntryKey) {
    && LeafWf(bl) && LeafWf(br) && x <= k.ikey && br.size < WIDTH
    && bl.size <= i && i - bl.size == LowerPos(Entries(br), k)
    && (br.perm[WIDTH - 1] == 0 ==> br.slots[0].key.ikey == k.ikey)
  }

  lemma LeftTakesIt<V>(b: Body<V>, lo: int, hi: int, i: nat, k: EntryKey, x: int, m: nat)
    requires LeafOk(b, lo, hi) && WIDTH - 1 <= b.size && (b.size < WIDTH ==> b.perm[WIDTH - 1] == 0)
    requires i == LowerPos(Entries(b), k) && k.ikey < x && i <= m < b.size
    ensures LeftTakes(StripLeft(b, m), lo, x, i, k)
  {
    StripLeftOk(b, m);
    if b.size == WIDTH && lo > 0 { LastSlotNotBound(b, lo, hi); }
    LowerPosIs(Entries(b)[..m], k, i);
  }

  lemma RightTakesIt<V>(b: Body<V>, lo: int, hi: int, i: nat, k: EntryKey, x: int, m: nat, br: Body<V>)
    requires LeafOk(b, lo, hi) && WIDTH - 1 <= b.size
    requires i == LowerPos(Entries(b), k) && x <= k.ikey && 0 < m <= i
    requires LeafWf(br) && Entries(br) == Entries(b)[m..] && br.perm[WIDTH - 1] == i - m && br.slots[i - m].key == k
    ensures RightTakes(StripLeft(b, m), br, x, i, k)
  {
    StripLeftOk(b, m);
    LowerPosIs(Entries(b)[m..], k, i - m);
  }

  /** An append with a new slice to the rightmost leaf. */
  ghost predicate Appends<V>(b: Body<V>, i: nat, k: EntryKey)
    requires LeafWf(b) && 0 < b.size
  {
    b.next == NULL && i == b.size && Entries(b)[b.size - 1].key.ikey < k.ikey
  }

  lemma AppendChanges<V>(b: Body<V>, i: nat, k: EntryKey)
    requires LeafWf(b) && 0 < b.size && i <= b.size
    ensures i == b.size ==> (Entries(b)[b.size - 1].key.ikey < k.ikey <==> Changes(KeysAfter(b, i, k), b.size))
  {
    if i == b.size { EntryAfter(b, i, k, b.size - 1); }
  }

  /** The split point among the keys there will be. */
  method ChoosePoint<V>(b: Body<V>, i: nat, k: EntryKey, ghost lo: int, ghost hi: int) returns (mid: nat)
    requires LeafOk(b, lo, hi) && WIDTH - 1 <= b.size
    requires Get(Entries(b), k) == None && i == LowerPos(Entries(b), k)
    requires lo <= k.ikey < hi && k.len <= 9
    ensures LeafWf(b) && 0 < mid <= b.size
    ensures KeysAfter(b, i, k)[mid - 1].ikey < KeysAfter(b, i, k)[mid].ikey
    ensures (mid == b.size <==> Appends(b, i, k)) && (mid == b.size ==> i == b.size)
  {
    hide LeafOk, KeysAfter, Get, LowerPos;
    KeysAfterFit(b, lo, hi, i, k);
    AppendChanges(b, i, k);
    mid := SplitPoint(KeysAfter(b, i, k), i, b.prev == NULL, b.next == NULL);
  }

  /** `leaf::split_into` and the stripping of the left leaf: the split point, the two leaves, and
      the split type (0: the new entry belongs left; 1: right; 2: right, and no entry moves there,
      which happens just for an append with a new slice to the rightmost leaf). */
  method SplitLeaf<V>(b: Body<V>, i: nat, k: EntryKey, ghost lo: int, ghost hi: int)
    returns (x: Ikey, bl: Body<V>, br: Body<V>, splitType: nat)
    requires LeafOk(b, lo, hi) && WIDTH - 1 <= b.size && (b.size < WIDTH ==> b.perm[WIDTH - 1] == 0)
    requires Get(Entries(b), k) == None && i == LowerPos(Entries(b), k)
    requires lo <= k.ikey < hi && k.len <= 9
    ensures Halves(b, lo, x, hi, bl, br) && bl.next == b.next && bl.prev == b.prev
    ensures if splitType == 0 then LeftTakes(bl, lo, x, i, k) else RightTakes(bl, br, x, i, k)
    ensures splitType <= 2 && (splitType == 2 <==> Appends(b, i, k))
    ensures (splitType == 2 <==> br.size == 0) && (splitType != 0 ==> 0 < bl.size)
  {
    hide LeafOk, Halves, LeftTakes, RightTakes, KeysAfter, Appends, Get;
    var mid := ChoosePoint(b, i, k, lo, hi);
    CutSides(b, lo, hi, i, k, mid);
    br := FillRight(b, i, k, mid);
    x := br.slots[0].key.ikey;
    var m := b.size - br.size;
    StripLeftOk(b, m);
    bl := StripLeft(b, m);
    HalvesOk(b, lo, hi, m, x, bl, br);
    if i < mid {
      splitType := 0;
      LeftTakesIt(b, lo, hi, i, k, x, m);
    } else {
      splitType := if mid == b.size then 2 else 1;
      RightTakesIt(b, lo, hi, i, k, x, m, br);
    }
  }
}
