/** The order in which a reverse scan meets the keys of a trie of layers (masstree_scan.hh,
    `reverse_scan_helper`): what has been passed when the scan stands before entry `k` of the layer
    under prefix `pre`. */
module ReverseOrder {
  import opened NodeStore
  import opened Key
  import opened LayerForest
  import opened LayerPaths
  import opened ScanOrder

  /** Beyond every entry (`upper_bound_`). */
  const UPPER: EntryKey := EntryKey(TOP - 1, SLICE + 2)

  /** Key `j` comes no earlier than entry `k` of the layer under prefix `pre`. The prefix itself is no
      key of a layer below the first. */
  predicate PassedBack(pre: Bytes, k: EntryKey, j: Bytes) {
    if pre <= j then (j != pre || pre == []) && !Less(EntryOf(j[|pre|..]), k) else LexLess(pre, j)
  }

  /** A reverse scan goes down in byte order. */
  lemma PassedBackLess(pre: Bytes, k: EntryKey, a: Bytes, b: Bytes)
    requires PassedBack(pre, k, a) && !PassedBack(pre, k, b)
    ensures LexLess(b, a)
  {
    hide EntryOf;
    if pre <= a && pre <= b {
      var r, s := a[|pre|..], b[|pre|..];
      assert a == pre + r && b == pre + s;
      LayerOrder(s, r);
      LexPrefix(pre, s, r);
    } else if pre <= a {
      LexTotal(b, pre);
      assert a == pre + a[|pre|..];
      LexBelow(b, pre, a[|pre|..]);
    } else {
      LexTotal(b, pre);
      NotBelow(pre, b, a);
    }
  }

  lemma PassedBackMore(pre: Bytes, k: EntryKey, e: EntryKey, j: Bytes)
    requires PassedBack(pre, k, j) && Less(e, k)
    ensures PassedBack(pre, e, j)
  {
    hide EntryOf, LexLess;
  }

  lemma Extends(p: Bytes, e: Bytes, r: Bytes)
    ensures p + e <= p + r <==> e <= r
  {
    if p + e <= p + r { assert r[..|e|] == (p + r)[|p|..|p + e|] == e; }
  }

  /** Going down under slice `x`: what was passed stays passed. */
  lemma PassedBackDown(pre: Bytes, k: EntryKey, x: Ikey, j: Bytes)
    requires Less(EntryKey(x, SLICE + 1), k) && PassedBack(pre, k, j)
    ensures PassedBack(pre + Eight(x), UPPER, j)
  {
    hide EntryOf, Eight;
    var pre' := pre + Eight(x);
    if pre <= j {
      var r := j[|pre|..];
      assert j == pre + r;
      AgainstSlice(x, r);
      LexTotal(r, Eight(x));
      LexPrefix(pre, Eight(x), r);
      Extends(pre, Eight(x), r);
    } else {
      LexAbove(pre, Eight(x), j);
      assert !(pre' <= j) by { assert pre <= pre'; }
    }
  }

  /** Going up again: everything under slice `x` is passed, and what was passed before. */
  lemma PassedBackUp(pre: Bytes, x: Ikey, k: EntryKey, j: Bytes)
    requires PassedBack(pre + Eight(x), k, j)
    ensures PassedBack(pre, EntryKey(x, SLICE + 1), j)
  {
    hide EntryOf, Eight;
    var pre' := pre + Eight(x);
    if pre <= j {
      var r := j[|pre|..];
      assert j == pre + r;
      AgainstSlice(x, r);
      LexTotal(r, Eight(x));
      LexPrefix(pre, Eight(x), r);
      if pre' <= j {
        assert Eight(x) <= r by { assert r[..SLICE] == j[|pre|..|pre'|] == Eight(x); }
        assert r == Eight(x) ==> j == pre';
      } else {
        assert Eight(x) <= r ==> pre' <= j;
      }
    } else {
      assert !(pre' <= j) by { assert pre <= pre'; }
      LexTotal(pre, j);
      LexBelow(j, pre, Eight(x));
      LexTotal(j, pre');
    }
  }

  // ----- steps of a reverse scan -----

  /** `e` is the last entry of `w` before `k`. */
  ghost predicate IsPrev<V>(w: imap<EntryKey, V>, k: EntryKey, e: EntryKey) {
    e in w && Less(e, k) && forall x :: x in w && Less(x, k) ==> !Less(e, x)
  }

  ghost predicate NoneBefore<V>(w: imap<EntryKey, V>, k: EntryKey) {
    forall x :: x in w ==> !Less(x, k)
  }

  /** Going back to a value passes its key and no other. */
  lemma EmitBack<V>(f: Forest<V>, m: Ptr, k: EntryKey, e: EntryKey, j: Bytes)
    requires WF(f) && m in f.vs && IsPrev(f.vs[m], k, e) && !f.vs[m][e].Link? && j in Contents(f)
    ensures PassedBack(Flat(f.prefix[m]), e, j) <==> PassedBack(Flat(f.prefix[m]), k, j) || j == KeyAt(f, m, e)
    ensures !PassedBack(Flat(f.prefix[m]), k, KeyAt(f, m, e))
  {
    hide Reach, EntryOf, Match, Head, Contents, KeyAt, Flat, EntryOk, HasParent;
    KeyAtIs(f, m, e);
    var p := Flat(f.prefix[m]);
    RootFlat(f, m);
    if j == KeyAt(f, m, e) && j == p {
      assert j[|p|..] == [];
      EmptyEntry();
      NotEmptyEntry(f, m, e);
    }
    if p <= j && (m == f.root || j != p) {
      StoredBelow(f, m, j);
    }
  }

  lemma RootFlat<V>(f: Forest<V>, m: Ptr)
    requires WF(f) && m in f.vs
    ensures Flat(f.prefix[m]) == [] <==> m == f.root
  {
    if m != f.root { assert HasParent(f, m); }
  }

  /** Going down into a layer passes nothing. */
  lemma DownBack<V>(f: Forest<V>, m: Ptr, k: EntryKey, x: Ikey, c: Ptr, j: Bytes)
    requires WF(f) && m in f.vs && IsPrev(f.vs[m], k, EntryKey(x, SLICE + 1))
    requires f.vs[m][EntryKey(x, SLICE + 1)] == Link(c)
    requires j in Contents(f)
    ensures PassedBack(Flat(f.prefix[m]) + Eight(x), UPPER, j) <==> PassedBack(Flat(f.prefix[m]), k, j)
  {
    hide Reach, EntryOf, Match, Contents, Flat, PassedBack, EntryOk, HasParent;
    if PassedBack(Flat(f.prefix[m]), k, j) {
      PassedBackDown(Flat(f.prefix[m]), k, x, j);
    } else if PassedBack(Flat(f.prefix[m]) + Eight(x), UPPER, j) {
      DownPassedBack(f, m, k, x, j);
    }
  }

  lemma DownPassedBack<V>(f: Forest<V>, m: Ptr, k: EntryKey, x: Ikey, j: Bytes)
    requires WF(f) && m in f.vs && IsPrev(f.vs[m], k, EntryKey(x, SLICE + 1)) && j in Contents(f)
    requires PassedBack(Flat(f.prefix[m]) + Eight(x), UPPER, j)
    ensures PassedBack(Flat(f.prefix[m]), k, j)
  {
    hide Reach, Match, Contents, Flat, EntryOf, KeyAt, EntryOk, HasParent, Eight;
    var p := Flat(f.prefix[m]);
    var p' := p + Eight(x);
    EntryLength(j, |p'|);
    assert !(p' <= j) && LexLess(p', j);
    if p <= j {
      var r := j[|p|..];
      assert j == p + r;
      AgainstSlice(x, r);
      LexPrefix(p, Eight(x), r);
      LexTotal(r, Eight(x));
      assert Eight(x) <= r ==> p' <= j;
      LexBelow(j, p', []);
      if j != p {
        StoredBelow(f, m, j);
        AboveSlice(EntryOf(r), x);
      }
    } else {
      LexTotal(p, j);
      LexBelow(j, p, Eight(x));
      LexTotal(j, p');
    }
  }

  /** Every entry is below the upper bound. */
  lemma EntryLength(j: Bytes, n: nat)
    ensures n <= |j| ==> Less(EntryOf(j[n..]), UPPER)
  {
  }

  lemma AboveSlice(e: EntryKey, x: Ikey)
    requires !Less(e, EntryKey(x, SLICE)) && e != EntryKey(x, SLICE) && e != EntryKey(x, SLICE + 1)
    ensures Less(EntryKey(x, SLICE + 1), e)
  {
  }

  /** Coming up from a layer with nothing left passes nothing. */
  lemma UpBack<V>(f: Forest<V>, m: Ptr, x: Ikey, c: Ptr, k: EntryKey, j: Bytes)
    requires WF(f) && m in f.vs && EntryKey(x, SLICE + 1) in f.vs[m] && f.vs[m][EntryKey(x, SLICE + 1)] == Link(c)
    requires c in f.vs && NoneBefore(f.vs[c], k) && j in Contents(f)
    ensures PassedBack(Flat(f.prefix[m]), EntryKey(x, SLICE + 1), j) <==> PassedBack(Flat(f.prefix[c]), k, j)
  {
    LinkIs(f, m, x, c);
    hide Reach, Match, WF, Contents, Flat, EntryOf, KeyAt, PassedBack;
    var p, p' := Flat(f.prefix[m]), Flat(f.prefix[c]);
    if PassedBack(p', k, j) {
      PassedBackUp(p, x, k, j);
    } else if PassedBack(p, EntryKey(x, SLICE + 1), j) {
      UpPassedBack(f, p, x, c, k, j);
    }
  }

  lemma UpPassedBack<V>(f: Forest<V>, p: Bytes, x: Ikey, c: Ptr, k: EntryKey, j: Bytes)
    requires WF(f) && c in f.vs && c != f.root && Flat(f.prefix[c]) == p + Eight(x) && NoneBefore(f.vs[c], k)
    requires j in Contents(f)
    requires PassedBack(p, EntryKey(x, SLICE + 1), j)
    ensures PassedBack(p + Eight(x), k, j)
  {
    hide Reach, Match, WF, Contents, Flat, EntryOf, KeyAt, Eight;
    var p' := p + Eight(x);
    if p <= j {
      var r := j[|p|..];
      assert j == p + r;
      AgainstSlice(x, r);
      if p' <= j {
        assert j == p' ==> r == Eight(x);
        if j != p' { StoredBelow(f, c, j); }
      } else {
        LexTotal(r, Eight(x));
        LexPrefix(p, Eight(x), r);
      }
    } else {
      LexAbove(p, Eight(x), j);
      assert !(p' <= j) by { assert p <= p'; }
    }
  }

  /** When nothing is left in the first layer, everything has been passed. */
  lemma EndBack<V>(f: Forest<V>, k: EntryKey, j: Bytes)
    requires WF(f) && NoneBefore(f.vs[f.root], k) && j in Contents(f)
    ensures PassedBack(Flat(f.prefix[f.root]), k, j)
  {
    StoredBelow(f, f.root, j);
  }
}
