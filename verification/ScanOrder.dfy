/** The order in which a scan meets the keys of a trie of layers (masstree_scan.hh): what has been
    passed when the scan stands behind entry `k` of the layer under prefix `pre`. */
module ScanOrder {
  import opened NodeStore
  import opened Key
  import opened LayerForest
  import opened LayerPaths

  // ----- byte order -----

  lemma {:induction false} LexTrans(a: Bytes, b: Bytes, c: Bytes)
    requires LexLess(a, b) && LexLess(b, c)
    ensures LexLess(a, c)
    decreases |a|
  {
    if a != [] && a[0] == b[0] && b[0] == c[0] { LexTrans(a[1..], b[1..], c[1..]); }
  }

  lemma {:induction false} LexTotal(a: Bytes, b: Bytes)
    ensures LexLess(a, b) || a == b || LexLess(b, a)
    ensures !(LexLess(a, b) && LexLess(b, a)) && !LexLess(a, a)
    decreases |a|
  {
    if a != [] {
      if b != [] && a[0] == b[0] {
        LexTotal(a[1..], b[1..]);
        assert a == [a[0]] + a[1..] && b == [b[0]] + b[1..];
      }
      LexSelf(a);
    }
  }

  lemma {:induction false} LexSelf(a: Bytes)
    ensures !LexLess(a, a)
  {
    if a != [] { LexSelf(a[1..]); }
  }

  lemma {:induction false} LexPrefix(p: Bytes, a: Bytes, b: Bytes)
    ensures LexLess(p + a, p + b) <==> LexLess(a, b)
  {
    if p == [] {
      assert p + a == a && p + b == b;
    } else {
      assert (p + a)[1..] == p[1..] + a && (p + b)[1..] == p[1..] + b;
      LexPrefix(p[1..], a, b);
    }
  }

  /** What is below a string that it does not extend is below every extension, and the other way round. */
  lemma {:induction false} LexBelow(j: Bytes, p: Bytes, r: Bytes)
    ensures LexLess(j, p) ==> LexLess(j, p + r)
    ensures LexLess(j, p + r) && !(p <= j) ==> LexLess(j, p)
    ensures LexLess(j, p) ==> !(p <= j)
    decreases |p|
  {
    if p == [] {
    } else if j != [] && j[0] == p[0] {
      assert (p + r)[1..] == p[1..] + r;
      LexBelow(j[1..], p[1..], r);
      assert p[1..] <= j[1..] <==> p <= j by {
        assert p == [p[0]] + p[1..] && j == [j[0]] + j[1..];
      }
    } else {
      assert (p + r)[0] == p[0];
    }
  }

  // ----- slices -----

  /** Where `r` stands to slice `x`, by its entry and by its bytes. */
  lemma AgainstSlice(x: Ikey, r: Bytes)
    ensures LexLess(r, Eight(x)) <==> Less(EntryOf(r), EntryKey(x, SLICE))
    ensures r == Eight(x) <==> EntryOf(r) == EntryKey(x, SLICE)
    ensures Eight(x) <= r && r != Eight(x) <==> EntryOf(r) == EntryKey(x, SLICE + 1)
  {
    EightIs(x, []);
    assert Eight(x) + [] == Eight(x);
    LayerOrder(r, Eight(x));
    if EntryOf(r) == EntryKey(x, SLICE) { SameEntry(r, Eight(x)); }
    if Eight(x) <= r {
      assert r == Eight(x) + r[SLICE..];
      EightIs(x, r[SLICE..]);
    }
    if EntryOf(r) == EntryKey(x, SLICE + 1) {
      EightIs(x, [0]);
      SameEntry(r, Eight(x) + [0]);
      assert (Eight(x) + [0])[..SLICE] == Eight(x);
    }
  }

  lemma {:induction false} NumZeros(w: nat)
    ensures Num(PadTo([], w)) == 0
  {
    if w > 0 {
      NumZeros(w - 1);
      assert PadTo([], w) == [0] + PadTo([], w - 1);
    }
  }

  lemma EmptyEntry()
    ensures EntryOf([]) == EntryKey(0, 0)
  {
    NumZeros(SLICE);
  }

  // ----- what has been passed -----

  /** Key `j` comes no later than entry `k` of the layer under prefix `pre`. */
  predicate Passed(pre: Bytes, k: EntryKey, j: Bytes) {
    if pre <= j then !Less(k, EntryOf(j[|pre|..])) else LexLess(j, pre)
  }

  /** A scan goes up in byte order. */
  lemma PassedLess(pre: Bytes, k: EntryKey, a: Bytes, b: Bytes)
    requires Passed(pre, k, a) && !Passed(pre, k, b)
    ensures LexLess(a, b)
  {
    hide EntryOf;
    if pre <= a && pre <= b {
      var r, s := a[|pre|..], b[|pre|..];
      assert a == pre + r && b == pre + s;
      LayerOrder(r, s);
      LexPrefix(pre, r, s);
    } else if pre <= b {
      assert b == pre + b[|pre|..];
      LexBelow(a, pre, b[|pre|..]);
    } else {
      LexTotal(b, pre);
      NotBelow(pre, a, b);
    }
  }

  lemma NotBelow(pre: Bytes, a: Bytes, b: Bytes)
    requires LexLess(pre, b) && !(pre <= b) && (pre <= a || LexLess(a, pre))
    ensures LexLess(a, b)
  {
    if pre <= a {
      assert a == pre + a[|pre|..];
      LexAbove(pre, a[|pre|..], b);
    } else {
      LexTrans(a, pre, b);
    }
  }

  lemma {:induction false} LexAbove(p: Bytes, r: Bytes, b: Bytes)
    requires LexLess(p, b) && !(p <= b)
    ensures LexLess(p + r, b)
    decreases |p|
  {
    if p != [] && p[0] == b[0] {
      assert p == [p[0]] + p[1..] && b == [b[0]] + b[1..] && (p + r)[1..] == p[1..] + r;
      assert p[1..] <= b[1..] ==> p <= b;
      LexAbove(p[1..], r, b[1..]);
    }
  }

  /** Going down under slice `x`: what was passed stays passed. */
  lemma PassedDown(pre: Bytes, k: EntryKey, x: Ikey, j: Bytes)
    requires Less(k, EntryKey(x, SLICE + 1)) && Passed(pre, k, j)
    ensures Passed(pre + Eight(x), EntryKey(0, 0), j)
  {
    var pre' := pre + Eight(x);
    if pre <= j {
      var r := j[|pre|..];
      assert j == pre + r;
      AgainstSlice(x, r);
      LexPrefix(pre, r, Eight(x));
      LexBelow(j, pre', []);
      assert pre' + [] == pre';
      if pre' <= j {
        assert Eight(x) <= r by { assert r[..SLICE] == j[|pre|..|pre'|] == Eight(x); }
        assert j == pre';
        assert j[|pre'|..] == [];
        EmptyEntry();
      }
    } else {
      LexBelow(j, pre, Eight(x));
      assert !(pre' <= j) by { assert pre <= pre'; }
    }
  }

  /** Going up again: everything under slice `x` is passed, and what was passed before. */
  lemma PassedUp(pre: Bytes, x: Ikey, k: EntryKey, j: Bytes)
    requires Passed(pre + Eight(x), k, j)
    ensures Passed(pre, EntryKey(x, SLICE + 1), j)
  {
    var pre' := pre + Eight(x);
    if pre <= j {
      var r := j[|pre|..];
      assert j == pre + r;
      AgainstSlice(x, r);
      if pre' <= j {
        assert Eight(x) <= r by { assert r[..SLICE] == j[|pre|..|pre'|] == Eight(x); }
      } else {
        LexPrefix(pre, r, Eight(x));
      }
    } else {
      assert !(pre' <= j) by { assert pre <= pre'; }
      LexBelow(j, pre, Eight(x));
    }
  }

  // ----- keys and layers -----

  /** What a payload adds to its entry's slice. */
  function Tail<V>(p: Payload<V>): Bytes {
    if p.Suffix? then p.rest else []
  }

  /** The key that a value's entry stands for. */
  ghost function KeyAt<V>(f: Forest<V>, m: Ptr, e: EntryKey): Bytes
    requires WF(f) && m in f.vs && e in f.vs[m]
  {
    Flat(f.prefix[m]) + Head(e) + Tail(f.vs[m][e])
  }

  lemma HeadEntry<V>(f: Forest<V>, m: Ptr, e: EntryKey)
    requires WF(f) && m in f.vs && e in f.vs[m] && !f.vs[m][e].Link?
    ensures var r := Head(e) + Tail(f.vs[m][e]);
      EntryOf(r) == e && (m == f.root || r != []) && Match(f.vs[m], r) == Some(f.vs[m][e].v)
      && (f.vs[m][e].Suffix? ==> |r| > SLICE)
  {
    assert EntryOk(f, m, e);
    var s: Bytes :| EntryOf(s) == e;
    HeadIs(s);
    if f.vs[m][e].Suffix? {
      var r := Head(e) + f.vs[m][e].rest;
      assert r[SLICE..] == f.vs[m][e].rest && r[..SLICE] == s[..SLICE];
      PadPrefix(r, SLICE);
      PadPrefix(s, SLICE);
    } else {
      assert Head(e) + [] == s;
    }
  }

  /** It is stored, and no other key has that entry. */
  lemma KeyAtIs<V>(f: Forest<V>, m: Ptr, e: EntryKey)
    requires WF(f) && m in f.vs && e in f.vs[m] && !f.vs[m][e].Link?
    ensures var j := KeyAt(f, m, e);
      && j in Contents(f) && Contents(f)[j] == f.vs[m][e].v
      && Flat(f.prefix[m]) <= j && EntryOf(j[|Flat(f.prefix[m])|..]) == e
  {
    var r := Head(e) + Tail(f.vs[m][e]);
    HeadEntry(f, m, e);
    assert KeyAt(f, m, e) == Flat(f.prefix[m]) + r;
    ReachThrough(f, m, r);
    EndsHere(f, m, r);
    assert KeyAt(f, m, e)[|Flat(f.prefix[m])|..] == r;
  }

  lemma EndsHere<V>(f: Forest<V>, m: Ptr, r: Bytes)
    requires WF(f) && m in f.vs && (EntryOf(r) in f.vs[m] ==> !f.vs[m][EntryOf(r)].Link?)
    ensures Reach(f, m, r) == (m, r)
  {
  }

  /** A stored key that begins with a layer's slices has an entry there; if the entry is a value's, it
      is that value's key. */
  lemma StoredBelow<V>(f: Forest<V>, m: Ptr, j: Bytes)
    requires WF(f) && m in f.vs && j in Contents(f) && Flat(f.prefix[m]) <= j && (m == f.root || j != Flat(f.prefix[m]))
    ensures var e := EntryOf(j[|Flat(f.prefix[m])|..]);
      e in f.vs[m] && (!f.vs[m][e].Link? ==> j == KeyAt(f, m, e))
  {
    hide Reach, EntryOf, Match, Head;
    var p := Flat(f.prefix[m]);
    var r := j[|p|..];
    assert j == p + r;
    assert r == [] ==> j == p;
    ReachThrough(f, m, r);
    var e := EntryOf(r);
    if e !in f.vs[m] || !f.vs[m][e].Link? {
      EndsHere(f, m, r);
      FoundIs(f, j);
      MatchedRest(f, m, r);
      assert p + (Head(e) + Tail(f.vs[m][e])) == KeyAt(f, m, e);
    }
  }

  lemma FoundIs<V>(f: Forest<V>, j: Bytes)
    requires WF(f) && j in Contents(f)
    ensures var (n, r) := Reach(f, f.root, j); Match(f.vs[n], r).Some?
  {
  }

  lemma MatchedRest<V>(f: Forest<V>, m: Ptr, r: Bytes)
    requires WF(f) && m in f.vs && Match(f.vs[m], r).Some?
    ensures var e := EntryOf(r);
      e in f.vs[m] && !f.vs[m][e].Link? && r == Head(e) + Tail(f.vs[m][e])
  {
    var e := EntryOf(r);
    assert EntryOk(f, m, e);
    HeadIs(r);
    if |r| > SLICE { assert r == r[..SLICE] + r[SLICE..]; } else { assert r + [] == r; }
  }

  // ----- steps of a scan -----

  /** `e` is the first entry of `w` after `k`. */
  ghost predicate IsNext<V>(w: imap<EntryKey, V>, k: EntryKey, e: EntryKey) {
    e in w && Less(k, e) && forall x :: x in w && Less(k, x) ==> !Less(x, e)
  }

  ghost predicate NoneAfter<V>(w: imap<EntryKey, V>, k: EntryKey) {
    forall x :: x in w ==> !Less(k, x)
  }

  /** Going on to a value passes its key and no other. */
  lemma EmitStep<V>(f: Forest<V>, m: Ptr, k: EntryKey, e: EntryKey, j: Bytes)
    requires WF(f) && m in f.vs && IsNext(f.vs[m], k, e) && !f.vs[m][e].Link? && j in Contents(f)
    ensures Passed(Flat(f.prefix[m]), e, j) <==> Passed(Flat(f.prefix[m]), k, j) || j == KeyAt(f, m, e)
    ensures !Passed(Flat(f.prefix[m]), k, KeyAt(f, m, e))
  {
    hide Reach, EntryOf, Match, Head, Contents, KeyAt, Flat, EntryOk, HasParent;
    KeyAtIs(f, m, e);
    var p := Flat(f.prefix[m]);
    if p <= j {
      if m == f.root || j != p {
        StoredBelow(f, m, j);
      } else {
        assert j[|p|..] == [];
        EmptyEntry();
        NotEmptyEntry(f, m, e);
      }
    }
  }

  /** Below the first layer no entry is for the empty string. */
  lemma NotEmptyEntry<V>(f: Forest<V>, m: Ptr, e: EntryKey)
    requires WF(f) && m in f.vs && e in f.vs[m]
    ensures m != f.root ==> Less(EntryKey(0, 0), e)
  {
    assert EntryOk(f, m, e);
  }

  /** Going down into a layer passes nothing. */
  lemma DownStep<V>(f: Forest<V>, m: Ptr, k: EntryKey, x: Ikey, c: Ptr, j: Bytes)
    requires WF(f) && m in f.vs && IsNext(f.vs[m], k, EntryKey(x, SLICE + 1))
    requires f.vs[m][EntryKey(x, SLICE + 1)] == Link(c)
    requires j in Contents(f)
    ensures c in f.vs && f.prefix[c] == f.prefix[m] + [x] && Flat(f.prefix[c]) == Flat(f.prefix[m]) + Eight(x)
    ensures Passed(Flat(f.prefix[c]), EntryKey(0, 0), j) <==> Passed(Flat(f.prefix[m]), k, j)
  {
    LinkIs(f, m, x, c);
    hide Reach, EntryOf, Match, WF, Contents, Flat, Passed;
    if Passed(Flat(f.prefix[m]), k, j) {
      PassedDown(Flat(f.prefix[m]), k, x, j);
    } else if Passed(Flat(f.prefix[c]), EntryKey(0, 0), j) {
      DownPassed(f, m, k, x, c, j);
    }
  }

  lemma LinkIs<V>(f: Forest<V>, m: Ptr, x: Ikey, c: Ptr)
    requires WF(f) && m in f.vs && EntryKey(x, SLICE + 1) in f.vs[m] && f.vs[m][EntryKey(x, SLICE + 1)] == Link(c)
    ensures c in f.vs && c != f.root && f.prefix[c] == f.prefix[m] + [x]
    ensures Flat(f.prefix[c]) == Flat(f.prefix[m]) + Eight(x)
  {
    assert EntryOk(f, m, EntryKey(x, SLICE + 1));
    FlatSnoc(f.prefix[m], x);
  }

  lemma DownPassed<V>(f: Forest<V>, m: Ptr, k: EntryKey, x: Ikey, c: Ptr, j: Bytes)
    requires WF(f) && m in f.vs && IsNext(f.vs[m], k, EntryKey(x, SLICE + 1)) && j in Contents(f)
    requires Passed(Flat(f.prefix[m]) + Eight(x), EntryKey(0, 0), j)
    ensures Passed(Flat(f.prefix[m]), k, j)
  {
    hide Reach, Match, Contents, Flat, EntryOf, KeyAt, EntryOk, HasParent;
    var p := Flat(f.prefix[m]);
    var p' := p + Eight(x);
    if p <= j {
      var r := j[|p|..];
      assert j == p + r;
      AgainstSlice(x, r);
      if p' <= j {
        NothingLeft(j[|p'|..]);
        assert j == p' + j[|p'|..];
        assert j == p' && r == Eight(x);
      } else {
        LexPrefix(p, r, Eight(x));
      }
      if m == f.root || j != p {
        StoredBelow(f, m, j);
      } else {
        assert r == [];
        EmptyEntry();
      }
    } else {
      assert !(p' <= j) by { assert p <= p'; }
      LexBelow(j, p, Eight(x));
    }
  }

  lemma NothingLeft(r: Bytes)
    ensures !Less(EntryKey(0, 0), EntryOf(r)) <==> r == []
  {
    EmptyEntry();
  }

  /** Coming up from a layer with nothing left passes nothing. */
  lemma UpStep<V>(f: Forest<V>, m: Ptr, x: Ikey, c: Ptr, k: EntryKey, j: Bytes)
    requires WF(f) && m in f.vs && EntryKey(x, SLICE + 1) in f.vs[m] && f.vs[m][EntryKey(x, SLICE + 1)] == Link(c)
    requires c in f.vs && NoneAfter(f.vs[c], k) && j in Contents(f)
    ensures Passed(Flat(f.prefix[m]), EntryKey(x, SLICE + 1), j) <==> Passed(Flat(f.prefix[c]), k, j)
  {
    LinkIs(f, m, x, c);
    hide Reach, Match, WF, Contents, Flat, EntryOf, KeyAt;
    var p, p' := Flat(f.prefix[m]), Flat(f.prefix[c]);
    if Passed(p', k, j) {
      PassedUp(p, x, k, j);
    } else if Passed(p, EntryKey(x, SLICE + 1), j) {
      UpPassed(f, p, x, c, k, j);
    }
  }

  lemma UpPassed<V>(f: Forest<V>, p: Bytes, x: Ikey, c: Ptr, k: EntryKey, j: Bytes)
    requires WF(f) && c in f.vs && c != f.root && Flat(f.prefix[c]) == p + Eight(x) && NoneAfter(f.vs[c], k)
    requires j in Contents(f)
    requires Passed(p, EntryKey(x, SLICE + 1), j)
    ensures Passed(p + Eight(x), k, j)
  {
    hide Reach, Match, WF, Contents, Flat, EntryOf, KeyAt;
    var p' := p + Eight(x);
    if p <= j {
      var r := j[|p|..];
      assert j == p + r;
      AgainstSlice(x, r);
      if p' <= j {
        if j != p' {
          StoredBelow(f, c, j);
        } else {
          assert j[|p'|..] == [];
          EmptyEntry();
        }
      } else {
        assert !(Eight(x) <= r) by { assert Eight(x) <= r ==> p' <= j; }
        LexPrefix(p, r, Eight(x));
      }
    } else {
      LexBelow(j, p, Eight(x));
      assert !(p' <= j) by { assert p <= p'; }
    }
  }

  /** When nothing is left in the first layer, everything has been passed. */
  lemma EndStep<V>(f: Forest<V>, k: EntryKey, j: Bytes)
    requires WF(f) && NoneAfter(f.vs[f.root], k) && j in Contents(f)
    ensures Passed(Flat(f.prefix[f.root]), k, j)
  {
    StoredBelow(f, f.root, j);
  }
}
