/** A reverse scan of the whole trie (masstree_scan.hh, `basic_table::rscan`), run by one thread. `UPPER`
    as the current key stands for `upper_bound_`. */
module ReverseTrieScan {
  import opened NodeStore
  import opened Key
  import opened LayerForest
  import opened LayerPaths
  import opened LayerTree
  import opened KeyTrie
  import opened LayerScan
  import opened ScanOrder
  import opened ReverseOrder
  import opened ScanStack

  /** The keys that a scan from `first` is to visit. */
  predicate Wanted(first: Bytes, incl: bool, j: Bytes) {
    LexLess(j, first) || (incl && j == first)
  }

  predicate Descending<V>(out: seq<(Bytes, V)>) {
    forall i, j :: 0 <= i < j < |out| ==> LexLess(out[j].0, out[i].0)
  }

  /** So far the scan has visited exactly the wanted keys that it has passed, each once and in order. */
  ghost predicate Scanned<V>(c: imap<Bytes, V>, first: Bytes, incl: bool, out: seq<(Bytes, V)>, pre: Bytes,
      k: EntryKey)
  {
    && Descending(out)
    && (forall i :: 0 <= i < |out| ==>
        out[i].0 in c && c[out[i].0] == out[i].1 && Wanted(first, incl, out[i].0) && PassedBack(pre, k, out[i].0))
    && (forall j {:trigger PassedBack(pre, k, j)} ::
        j in c && Wanted(first, incl, j) && PassedBack(pre, k, j) ==> Visited(out, j))
    && forall j {:trigger PassedBack(pre, k, j)} :: j in c && !PassedBack(pre, k, j) ==> Wanted(first, incl, j)
  }

  lemma ScannedSame<V>(c: imap<Bytes, V>, first: Bytes, incl: bool, out: seq<(Bytes, V)>, pre: Bytes, k: EntryKey,
      pre': Bytes, k': EntryKey)
    requires Scanned(c, first, incl, out, pre, k)
    requires forall j :: j in c ==> (PassedBack(pre', k', j) <==> PassedBack(pre, k, j))
    ensures Scanned(c, first, incl, out, pre', k')
  {
    hide PassedBack, Wanted, LexLess;
  }

  /** Visiting the next key. */
  lemma ScannedMore<V>(c: imap<Bytes, V>, first: Bytes, incl: bool, out: seq<(Bytes, V)>, pre: Bytes, k: EntryKey,
      e: EntryKey, j0: Bytes)
    requires Scanned(c, first, incl, out, pre, k) && j0 in c && !PassedBack(pre, k, j0)
    requires forall j :: j in c ==> (PassedBack(pre, e, j) <==> PassedBack(pre, k, j) || j == j0)
    ensures Scanned(c, first, incl, out + [(j0, c[j0])], pre, e)
  {
    hide Wanted, LexLess, PassedBack;
    var out' := out + [(j0, c[j0])];
    forall i | 0 <= i < |out| ensures LexLess(out'[|out|].0, out'[i].0) {
      PassedBackLess(pre, k, out[i].0, j0);
    }
    forall j | j in c && Wanted(first, incl, j) && PassedBack(pre, e, j) ensures Visited(out', j) {
      if j == j0 {
        assert out'[|out|].0 == j;
      } else {
        var i :| 0 <= i < |out| && out[i].0 == j;
        assert out'[i].0 == j;
      }
    }
  }

  // ----- the first key -----

  /** Before the first key's entry everything is wanted; from it on, at most the one key there is. */
  lemma FirstEntry<V>(f: Forest<V>, m: Ptr, first: Bytes, rest: Bytes, j: Bytes)
    requires WF(f) && m in f.vs && first == Flat(f.prefix[m]) + rest && (m == f.root || rest != []) && j in Contents(f)
    ensures var p, k := Flat(f.prefix[m]), EntryOf(rest);
      && (!PassedBack(p, k, j) ==> LexLess(j, first))
      && (PassedBack(p, k, j) && !LexLess(first, j) ==> k in f.vs[m] && (!f.vs[m][k].Link? ==> j == KeyAt(f, m, k)))
  {
    var p, k := Flat(f.prefix[m]), EntryOf(rest);
    hide Reach, Match, Contents, Flat, EntryOf, KeyAt, EntryOk, HasParent, LexLess, PassedBack;
    RootFlat(f, m);
    FirstPassedBack(p, rest);
    if !PassedBack(p, k, j) {
      PassedBackLess(p, k, first, j);
    } else {
      BackParts(p, k, j, rest);
      if p <= j { FirstAbove(f, m, rest, j[|p|..]); }
    }
  }

  lemma FirstPassedBack(p: Bytes, rest: Bytes)
    requires p == [] || rest != []
    ensures PassedBack(p, EntryOf(rest), p + rest)
  {
    assert (p + rest)[|p|..] == rest;
  }

  lemma BackParts(p: Bytes, k: EntryKey, j: Bytes, rest: Bytes)
    requires PassedBack(p, k, j)
    ensures if p <= j then !Less(EntryOf(j[|p|..]), k) && p + j[|p|..] == j && (p == [] || j[|p|..] != [])
      else LexLess(p + rest, j)
  {
    hide EntryOf, LexLess;
    if p <= j { assert p + j[|p|..] == j; } else { LexAbove(p, rest, j); }
  }

  lemma FirstAbove<V>(f: Forest<V>, m: Ptr, rest: Bytes, r: Bytes)
    requires WF(f) && m in f.vs && (m == f.root || r != []) && Flat(f.prefix[m]) + r in Contents(f)
    requires !Less(EntryOf(r), EntryOf(rest))
    ensures var p, k := Flat(f.prefix[m]), EntryOf(rest);
      LexLess(p + rest, p + r) || (k in f.vs[m] && (!f.vs[m][k].Link? ==> p + r == KeyAt(f, m, k)))
  {
    var p := Flat(f.prefix[m]);
    hide Reach, Match, Contents, Flat, EntryOf, KeyAt, EntryOk, HasParent, LexLess;
    LayerOrder(rest, r);
    LexPrefix(p, rest, r);
    assert (p + r)[|p|..] == r;
    if EntryOf(r) == EntryOf(rest) { StoredBelow(f, m, p + r); }
  }

  /** `initial_ksuf_match` for a suffix, and `emit_equal` for a value without one. */
  predicate FirstMatch<V>(p: Payload<V>, rest: Bytes, incl: bool)
    requires p.Suffix? ==> |rest| > SLICE
  {
    if p.Suffix? then Wanted(rest[SLICE..], incl, p.rest) else incl
  }

  /** Where the search for the first key ends, with `out` the key there if it is wanted. */
  lemma FirstScanned<V>(f: Forest<V>, m: Ptr, first: Bytes, incl: bool, rest: Bytes, out: seq<(Bytes, V)>)
    requires WF(f) && m in f.vs && first == Flat(f.prefix[m]) + rest && (m == f.root || rest != [])
    requires var k := EntryOf(rest);
      if k !in f.vs[m] then out == []
      else !f.vs[m][k].Link?
           && out == if Wanted(first, incl, KeyAt(f, m, k)) then [(KeyAt(f, m, k), f.vs[m][k].v)] else []
    ensures Scanned(Contents(f), first, incl, out, Flat(f.prefix[m]), EntryOf(rest))
  {
    hide Reach, Match, Contents, Flat, EntryOf, KeyAt, EntryOk, HasParent, LexLess, PassedBack;
    var k, p := EntryOf(rest), Flat(f.prefix[m]);
    forall j | j in Contents(f)
      ensures !PassedBack(p, k, j) ==> Wanted(first, incl, j)
      ensures PassedBack(p, k, j) && Wanted(first, incl, j) ==> Visited(out, j)
    {
      FirstEntry(f, m, first, rest, j);
      LexTotal(j, first);
      if PassedBack(p, k, j) && Wanted(first, incl, j) {
        assert j == KeyAt(f, m, k);
        assert out[0].0 == j;
      }
    }
    if out != [] {
      KeyAtIs(f, m, k);
      AtEntry(f, m, k);
    }
  }

  lemma AtEntry<V>(f: Forest<V>, m: Ptr, k: EntryKey)
    requires WF(f) && m in f.vs && k in f.vs[m] && !f.vs[m][k].Link?
    ensures PassedBack(Flat(f.prefix[m]), k, KeyAt(f, m, k))
  {
    hide Reach, Match, Contents, Flat, EntryOf, KeyAt, EntryOk, HasParent, LexLess;
    KeyAtIs(f, m, k);
    RootFlat(f, m);
    var p, j := Flat(f.prefix[m]), KeyAt(f, m, k);
    if j == p {
      assert j[|p|..] == [];
      EmptyEntry();
      NotEmptyEntry(f, m, k);
    }
  }

  /** The comparison of suffixes decides whether the key at the first entry is wanted. */
  lemma FirstBack<V>(f: Forest<V>, m: Ptr, first: Bytes, incl: bool, rest: Bytes)
    requires WF(f) && m in f.vs && first == Flat(f.prefix[m]) + rest && EntryOf(rest) in f.vs[m]
    requires !f.vs[m][EntryOf(rest)].Link?
    ensures var k := EntryOf(rest);
      var p := f.vs[m][k];
      (p.Suffix? ==> |rest| > SLICE) && (Wanted(first, incl, KeyAt(f, m, k)) <==> FirstMatch(p, rest, incl))
  {
    hide Reach, Match, Contents, Flat, EntryOf, KeyAt, EntryOk, HasParent, LexLess;
    FirstSuffix(f, m, first, rest);
    var j, p := KeyAt(f, m, EntryOf(rest)), f.vs[m][EntryOf(rest)];
    LexTotal(first, j);
    if p.Suffix? { LexTotal(rest[SLICE..], p.rest); }
  }

  // ----- the layers above -----

  /** The layers that the scan has not been to. A layer it has been to is one above, or was passed. */
  ghost predicate Been<V>(t: Trie<V>, been: set<Ptr>, pre: Bytes, k: EntryKey)
    requires t.Valid()
    reads t, t.layers.Values
  {
    && been <= t.layers.Keys
    && forall c {:trigger c in been} ::
        c in been ==> c in t.prefix && (Flat(t.prefix[c]) <= pre || PassedBack(pre, k, Flat(t.prefix[c]) + [0]))
  }

  // ----- the scan -----

  /** Where the loop stands: behind entry `k` of layer `m`, whose keys begin with `pre`, at position `i`
      of leaf `n`. */
  datatype Place = Place(stack: seq<Frame>, m: Ptr, n: Ptr, i: int, pre: Bytes, k: EntryKey)

  ghost predicate Stands<V>(t: Trie<V>, s: Place, been: set<Ptr>)
    requires t.Valid()
    reads t, t.layers.Values
  {
    && s.m in t.layers && s.m in t.prefix && s.pre == Flat(t.prefix[s.m]) && StackOk(t, s.stack, s.m)
    && Been(t, been, s.pre, s.k)
    && BackCursor(t.layers[s.m].T(), s.n, s.i, s.k)
  }

  /** Going down: the layer below is a new one. */
  lemma BeenDown<V>(t: Trie<V>, m: Ptr, pre: Bytes, k: EntryKey, been: set<Ptr>, x: Ikey, c: Ptr)
    requires t.Valid() && m in t.layers && m in t.prefix && pre == Flat(t.prefix[m]) && Been(t, been, pre, k)
    requires m in t.views && EntryKey(x, SLICE + 1) in t.views[m] && t.views[m][EntryKey(x, SLICE + 1)] == Link(c)
    requires Less(EntryKey(x, SLICE + 1), k)
    ensures c in t.layers && c !in been && c in t.prefix && t.prefix[c] == t.prefix[m] + [x]
    ensures pre + Eight(x) == Flat(t.prefix[c])
    ensures Been(t, been + {c}, pre + Eight(x), UPPER)
  {
    hide WF, Flat, Holds;
    LinkIs(t.F(), m, x, c);
    HeldIn(t, c);
    var q := pre + Eight(x);
    EightIs(x, [0]);
    assert (q + [0])[|pre|..] == Eight(x) + [0];
    assert !PassedBack(pre, k, q + [0]);
    forall d | d in been
      ensures d in t.prefix && (Flat(t.prefix[d]) <= q || PassedBack(q, UPPER, Flat(t.prefix[d]) + [0]))
    {
      if !(Flat(t.prefix[d]) <= pre) { PassedBackDown(pre, k, x, Flat(t.prefix[d]) + [0]); }
    }
  }

  lemma BeenUp<V>(t: Trie<V>, been: set<Ptr>, p: Bytes, q: Ptr, x: Ikey, k: EntryKey)
    requires t.Valid() && q in t.prefix && p == Flat(t.prefix[q]) && Been(t, been, p + Eight(x), k)
    ensures Been(t, been, p, EntryKey(x, SLICE + 1))
  {
    hide WF, Flat, Holds;
    var pre := p + Eight(x);
    forall d | d in been
      ensures d in t.prefix
      ensures (Flat(t.prefix[d]) <= p || PassedBack(p, EntryKey(x, SLICE + 1), Flat(t.prefix[d]) + [0])) {
      var w := Flat(t.prefix[d]);
      if w <= pre {
        WholeSlices(w, p, Eight(x), |t.prefix[d]|, |t.prefix[q]|);
        if w == pre {
          EightIs(x, [0]);
          assert (pre + [0])[|p|..] == Eight(x) + [0];
        }
      } else {
        PassedBackUp(p, x, k, w + [0]);
      }
    }
  }

  /** Up to the last key visited, nothing wanted was missed. */
  lemma UpToLast<V>(c: imap<Bytes, V>, first: Bytes, incl: bool, out: seq<(Bytes, V)>, pre: Bytes, k: EntryKey)
    requires Scanned(c, first, incl, out, pre, k) && out != []
    ensures Enumerates(c, first, incl, out, false)
  {
    hide PassedBack, Wanted, LexLess;
    forall j | j in c && Wanted(first, incl, j) && !LexLess(j, out[|out| - 1].0) ensures Visited(out, j) {
      if !PassedBack(pre, k, j) { PassedBackLess(pre, k, out[|out| - 1].0, j); }
    }
  }

  lemma AboveBeen<V>(t: Trie<V>, been: set<Ptr>, pre: Bytes, k: EntryKey)
    requires t.Valid() && Above(t, been, pre)
    ensures Been(t, been, pre, k)
  {
  }

  /** `find_initial`, as often as it goes down: where the first key is, or would be. A key there is
      visited if it is wanted. */
  method FindInitial<V>(t: Trie<V>, first: Bytes, incl: bool)
    returns (out: seq<(Bytes, V)>, s: Place, ghost been: set<Ptr>)
    requires t.Valid()
    ensures Stands(t, s, been) && Scanned(t.Map(), first, incl, out, s.pre, s.k) && |out| <= 1
  {
    hide WF, Flat, Holds, Layer.Valid, Layer.Sound, Layer.View, EntryOf, Slice, KeyAt, Scanned, BackCursor, InLeaf,
      StackOk, Above, Been, Contents, Head;
    var stack, m, pre, rest := [], t.root, [], first;
    out, been := [], {t.root};
    RootLayer(t);
    assert StackOk(t, stack, m) && Above(t, been, pre) by { Beginning(t); }
    while true
      invariant out == [] && m in t.layers && m in t.prefix && pre == Flat(t.prefix[m]) && pre + rest == first
      invariant (m == t.root || rest != []) && StackOk(t, stack, m) && Above(t, been, pre)
      decreases |rest|
    {
      HeldIn(t, m);
      var k := EntryOf(rest);
      var n, i, p := SeekBack(t.layers[m], k);
      s := Place(stack, m, n, i, pre, k);
      AboveBeen(t, been, pre, k);
      match p
      case None =>
        FirstScanned(t.F(), m, first, incl, rest, out);
        return;
      case Some(Link(c)) =>
        FirstLink(t, m, pre, rest, c);
        PushFrame(t, stack, m, n, Slice(rest), c);
        AboveMore(t, been, pre, rest[..SLICE], c);
        CutRest(pre, rest, SLICE);
        stack, m, pre, rest, been := stack + [Frame(m, n)], c, pre + rest[..SLICE], rest[SLICE..], been + {c};
      case Some(q) =>
        FirstBack(t.F(), m, first, incl, rest);
        KeyAtParts(t.F(), m, k);
        if FirstMatch(q, rest, incl) {
          out := [(pre + Head(k) + Tail(q), q.v)];
        }
        FirstScanned(t.F(), m, first, incl, rest, out);
        return;
    }
  }

  lemma ScannedOn<V>(t: Trie<V>, m: Ptr, key: EntryKey, first: Bytes, incl: bool, out: seq<(Bytes, V)>, pre: Bytes,
      k: EntryKey)
    requires t.Valid() && m in t.layers && m in t.views && m in t.prefix && pre == Flat(t.prefix[m])
    requires IsPrev(t.views[m], k, key) && !t.views[m][key].Link? && Scanned(t.Map(), first, incl, out, pre, k)
    ensures var p := t.views[m][key];
      Scanned(t.Map(), first, incl, out + [(pre + Head(key) + Tail(p), p.v)], pre, key)
  {
    hide WF, Flat, Holds, Scanned, Contents, PassedBack, EntryOf, Head, Wanted, LexLess, KeyAt;
    KeyAtIs(t.F(), m, key);
    KeyAtParts(t.F(), m, key);
    var j0 := KeyAt(t.F(), m, key);
    forall j | j in t.Map() ensures PassedBack(pre, key, j) <==> PassedBack(pre, k, j) || j == j0 {
      EmitBack(t.F(), m, k, key, j);
    }
    EmitBack(t.F(), m, k, key, j0);
    ScannedMore(t.Map(), first, incl, out, pre, k, key, j0);
  }

  lemma BeenOn<V>(t: Trie<V>, been: set<Ptr>, pre: Bytes, k: EntryKey, e: EntryKey)
    requires t.Valid() && Been(t, been, pre, k) && Less(e, k)
    ensures Been(t, been, pre, e)
  {
    hide WF, Flat, Holds, PassedBack;
    forall c | c in been && !(Flat(t.prefix[c]) <= pre) ensures PassedBack(pre, e, Flat(t.prefix[c]) + [0]) {
      PassedBackMore(pre, k, e, Flat(t.prefix[c]) + [0]);
    }
  }

  lemma ScannedDown<V>(t: Trie<V>, m: Ptr, key: EntryKey, c: Ptr, first: Bytes, incl: bool, out: seq<(Bytes, V)>,
      k: EntryKey)
    requires t.Valid() && m in t.layers && m in t.views && m in t.prefix
    requires Scanned(t.Map(), first, incl, out, Flat(t.prefix[m]), k)
    requires IsPrev(t.views[m], k, key) && t.views[m][key] == Link(c)
    ensures key.len == SLICE + 1 && Scanned(t.Map(), first, incl, out, Flat(t.prefix[m]) + Eight(key.ikey), UPPER)
  {
    hide WF, Flat, Holds, Scanned, Contents, PassedBack;
    LinkKey(t.F(), m, key);
    LinkIs(t.F(), m, key.ikey, c);
    var pre, pre' := Flat(t.prefix[m]), Flat(t.prefix[m]) + Eight(key.ikey);
    forall j | j in t.Map() ensures PassedBack(pre', UPPER, j) <==> PassedBack(pre, k, j) {
      DownBack(t.F(), m, k, key.ikey, c, j);
    }
    ScannedSame(t.Map(), first, incl, out, pre, k, pre', UPPER);
  }

  lemma ScannedUp<V>(t: Trie<V>, q: Ptr, x: Ikey, m: Ptr, first: Bytes, incl: bool, out: seq<(Bytes, V)>, k: EntryKey)
    requires t.Valid() && m in t.layers && m in t.views && m in t.prefix
    requires Scanned(t.Map(), first, incl, out, Flat(t.prefix[m]), k)
    requires q in t.views && q in t.prefix && EntryKey(x, SLICE + 1) in t.views[q]
    requires t.views[q][EntryKey(x, SLICE + 1)] == Link(m)
    requires NoneBefore(t.views[m], k)
    ensures Scanned(t.Map(), first, incl, out, Flat(t.prefix[q]), EntryKey(x, SLICE + 1))
  {
    hide WF, Flat, Holds, Scanned, Contents, PassedBack, NoneBefore;
    var pre, pre' := Flat(t.prefix[m]), Flat(t.prefix[q]);
    forall j | j in t.Map() ensures PassedBack(pre', EntryKey(x, SLICE + 1), j) <==> PassedBack(pre, k, j) {
      UpBack(t.F(), q, x, m, k, j);
    }
    ScannedSame(t.Map(), first, incl, out, pre, k, pre', EntryKey(x, SLICE + 1));
  }

  /** `scan_up`: nothing is left in the layer, so the scan goes on behind the link that led to it. */
  method GoUp<V>(t: Trie<V>, s: Place, ghost been: set<Ptr>, ghost first: Bytes, ghost incl: bool,
      ghost out: seq<(Bytes, V)>) returns (s': Place)
    requires t.Valid() && Stands(t, s, been) && s.stack != [] && Scanned(t.Map(), first, incl, out, s.pre, s.k)
    requires s.m in t.views && NoneBefore(t.views[s.m], s.k)
    ensures Stands(t, s', been) && s'.stack == s.stack[..|s.stack| - 1]
    ensures Scanned(t.Map(), first, incl, out, s'.pre, s'.k)
  {
    hide WF, Flat, Holds, Layer.Valid, Layer.Sound, Layer.View, EntryOf, Slice, BackCursor, InLeaf, StackOk, Been,
      Contents, NoneBefore, Scanned;
    PopFrame(t, s.stack, s.m, s.pre);
    var top, x := s.stack[|s.stack| - 1], Slice(s.pre[|s.pre| - SLICE..]);
    BeenUp(t, been, s.pre[..|s.pre| - SLICE], top.m, x, s.k);
    ScannedUp(t, top.m, x, s.m, first, incl, out, s.k);
    var i := SeekBackIn(t.layers[top.m], top.n, EntryKey(x, SLICE + 1));
    s' := Place(s.stack[..|s.stack| - 1], top.m, top.n, i, s.pre[..|s.pre| - SLICE], EntryKey(x, SLICE + 1));
  }

  /** `scan_down`: the next entry is a link. */
  method GoDown<V>(t: Trie<V>, s: Place, ghost been: set<Ptr>, n: Ptr, key: EntryKey, c: Ptr,
                   ghost first: Bytes, ghost incl: bool, ghost out: seq<(Bytes, V)>) returns (s': Place)
    requires t.Valid() && Stands(t, s, been) && Scanned(t.Map(), first, incl, out, s.pre, s.k)
    requires s.m in t.views && IsPrev(t.views[s.m], s.k, key) && t.views[s.m][key] == Link(c)
    requires InLeaf(t.layers[s.m], n, key.ikey)
    ensures c in t.layers && c !in been && Stands(t, s', been + {c}) && Scanned(t.Map(), first, incl, out, s'.pre, s'.k)
  {
    hide WF, Flat, Holds, Layer.Valid, Layer.Sound, Layer.View, EntryOf, Slice, BackCursor, InLeaf, StackOk, Been,
      Contents, Scanned;
    ScannedDown(t, s.m, key, c, first, incl, out, s.k);
    BeenDown(t, s.m, s.pre, s.k, been, key.ikey, c);
    PushFrame(t, s.stack, s.m, n, key.ikey, c);
    HeldIn(t, c);
    var n', i := SeekTop(t.layers[c]);
    s' := Place(s.stack + [Frame(s.m, n)], c, n', i, s.pre + Eight(key.ikey), UPPER);
  }

  /** `scan_emit`: the next entry is a value. */
  lemma GoOn<V>(t: Trie<V>, s: Place, been: set<Ptr>, n: Ptr, i: int, key: EntryKey, first: Bytes, incl: bool,
      out: seq<(Bytes, V)>)
    requires t.Valid() && Stands(t, s, been) && Scanned(t.Map(), first, incl, out, s.pre, s.k)
    requires s.m in t.views && IsPrev(t.views[s.m], s.k, key) && !t.views[s.m][key].Link?
    requires BackCursor(t.layers[s.m].T(), n, i, key)
    ensures var p := t.views[s.m][key];
      Stands(t, s.(n := n, i := i, k := key), been)
      && Scanned(t.Map(), first, incl, out + [(s.pre + Head(key) + Tail(p), p.v)], s.pre, key)
  {
    hide WF, Flat, Holds, Layer.Valid, Layer.Sound, Layer.View, EntryOf, Slice, BackCursor, InLeaf, StackOk, Been,
      Contents, Scanned, Head;
    ScannedOn(t, s.m, key, first, incl, out, s.pre, s.k);
    BeenOn(t, been, s.pre, s.k, key);
  }

  /** Nothing is left in the first layer. */
  lemma AllPassed<V>(t: Trie<V>, first: Bytes, incl: bool, out: seq<(Bytes, V)>, k: EntryKey)
    requires t.Valid() && t.root in t.layers && t.root in t.views && t.root in t.prefix
    requires NoneBefore(t.views[t.root], k)
    requires Scanned(t.Map(), first, incl, out, Flat(t.prefix[t.root]), k)
    ensures Enumerates(t.Map(), first, incl, out, true)
  {
    hide WF, Flat, Holds, Contents, PassedBack, NoneBefore, Wanted, LexLess;
    forall j | j in t.Map() && Wanted(first, incl, j) ensures Visited(out, j) {
      EndBack(t.F(), k, j);
    }
  }

  /** The visited keys and values are exactly the wanted ones of `c`, each once and in order; up to the
      last key visited, if the scan was not `done`. */
  ghost predicate Enumerates<V>(c: imap<Bytes, V>, first: Bytes, incl: bool, out: seq<(Bytes, V)>, done: bool) {
    && Descending(out)
    && (forall i :: 0 <= i < |out| ==> out[i].0 in c && c[out[i].0] == out[i].1 && Wanted(first, incl, out[i].0))
    && (out == [] ==> done)
    && forall j :: j in c && Wanted(first, incl, j) && (done || !LexLess(j, out[|out| - 1].0)) ==> Visited(out, j)
  }

  /** The scan has come closer to its end: to a new layer, to a layer above, or on in this layer. */
  ghost predicate Closer<V>(t: Trie<V>, s': Place, been': set<Ptr>, s: Place, been: set<Ptr>)
    reads t, t.layers.Values
  {
    || |t.layers.Keys - been'| < |t.layers.Keys - been|
    || (been' == been && (|s'.stack| < |s.stack|
        || (|s'.stack| == |s.stack|
            && (Ahead(t, s'.m, s'.n) < Ahead(t, s.m, s.n) || (s'.m == s.m && s'.n == s.n && s'.i < s.i)))))
  }

  /** From one place to the next: `find_next`, and `scan_down` or `scan_up` if it says so. `x` is the key
      and value to show to the visitor. */
  method Step<V>(t: Trie<V>, s: Place, ghost been: set<Ptr>, ghost first: Bytes, ghost incl: bool,
      ghost out: seq<(Bytes, V)>)
    returns (s': Place, ghost been': set<Ptr>, x: Option<(Bytes, V)>, end: bool)
    requires t.Valid() && Stands(t, s, been) && Scanned(t.Map(), first, incl, out, s.pre, s.k)
    ensures end ==> Enumerates(t.Map(), first, incl, out, true)
    ensures !end ==> Stands(t, s', been') && Closer(t, s', been', s, been)
    ensures !end ==> Scanned(t.Map(), first, incl, out + (if x.Some? then [x.value] else []), s'.pre, s'.k)
  {
    hide WF, Flat, Holds, Layer.Valid, Layer.Sound, Layer.View, LexLess, Wanted, IsPrev, NoneBefore, Scanned,
      Descending, Visited, Stands, Contents, BackCursor, Ahead, Enumerates;
    s', been', x, end := s, been, None, false;
    StandsIn(t, s, been);
    var n, i, e := FindPrev(t.layers[s.m], s.n, s.i, s.k);
    match e
    case None =>
      if s.stack == [] {
        FirstLayer(t, s, been);
        AllPassed(t, first, incl, out, s.k);
        end := true;
      } else {
        s' := GoUp(t, s, been, first, incl, out);
        assert out + [] == out;
      }
    case Some((key, Link(c))) =>
      s' := GoDown(t, s, been, n, key, c, first, incl, out);
      FewerLeft(t.layers.Keys, been, c);
      been' := been + {c};
      assert out + [] == out;
    case Some((key, p)) =>
      GoOn(t, s, been, n, i, key, first, incl, out);
      x := Some((s.pre + Head(key) + Tail(p), p.v));
      s' := s.(n := n, i := i, k := key);
      StandsIn(t, s', been);
  }

  /** `basic_table::rscan` with the reverse helper. The visitor goes on as long as `go` says so of what
      it has been shown. */
  method RScan<V>(t: Trie<V>, first: Bytes, incl: bool, go: seq<(Bytes, V)> -> bool)
    returns (out: seq<(Bytes, V)>, done: bool)
    requires t.Valid()
    ensures Enumerates(t.Map(), first, incl, out, done)
    ensures Shown(out, go) && (out == [] ==> done) && (out != [] ==> (go(out) <==> done))
  {
    hide *;
    RootLayer(t);
    var s, end;
    ghost var been;
    ghost var c := t.Map();
    out, s, been := FindInitial(t, first, incl);
    ShownFirst(out, go);
    while true
      invariant t.Valid() && Stands(t, s, been) && Scanned(c, first, incl, out, s.pre, s.k)
      invariant Shown(out, go)
      decreases |t.layers.Keys - been|, |s.stack|, Ahead(t, s.m, s.n), s.i + 1
    {
      if out != [] && !go(out) {
        UpToLast(c, first, incl, out, s.pre, s.k);
        return out, false;
      }
      var x;
      ghost var s0, been0 := s, been;
      s, been, x, end := Step(t, s, been, first, incl, out);
      if end {
        return out, true;
      }
      CloserMeans(t, s, been, s0, been0);
      if x.Some? {
        ShownMore(out, x.value, go);
        out := out + [x.value];
      } else {
        assert out + [] == out;
      }
    }
  }

  lemma CloserMeans<V>(t: Trie<V>, s': Place, been': set<Ptr>, s: Place, been: set<Ptr>)
    requires t.Valid() && Closer(t, s', been', s, been) && Stands(t, s, been) && Stands(t, s', been')
    ensures |t.layers.Keys - been'| < |t.layers.Keys - been| || (|t.layers.Keys - been'| == |t.layers.Keys - been|
      && (|s'.stack| < |s.stack| || (|s'.stack| == |s.stack|
          && (Ahead(t, s'.m, s'.n) < Ahead(t, s.m, s.n)
              || (Ahead(t, s'.m, s'.n) == Ahead(t, s.m, s.n) && s'.i + 1 < s.i + 1 && 0 <= s.i + 1)))))
  {
    hide Ahead;
    StandsIn(t, s, been);
    StandsIn(t, s', been');
  }

  lemma StandsIn<V>(t: Trie<V>, s: Place, been: set<Ptr>)
    requires t.Valid() && Stands(t, s, been)
    ensures s.m in t.layers && s.m in t.views && s.m in t.prefix && t.layers[s.m].Valid()
    ensures t.layers[s.m].View() == t.views[s.m]
    ensures BackCursor(t.layers[s.m].T(), s.n, s.i, s.k) && -1 <= s.i && s.pre == Flat(t.prefix[s.m])
    ensures Domains(t.layers[s.m].T()) && s.n in t.layers[s.m].nodes
    ensures Ahead(t, s.m, s.n) == |LeavesBefore(t.layers[s.m].T(), s.n)|
  {
    HeldIn(t, s.m);
  }

  ghost function Ahead<V>(t: Trie<V>, m: Ptr, n: Ptr): nat
    reads t, t.layers.Values
  {
    if m in t.layers && n in t.layers[m].nodes && Domains(t.layers[m].T()) then |LeavesBefore(t.layers[m].T(), n)|
      else 0
  }

  lemma FirstLayer<V>(t: Trie<V>, s: Place, been: set<Ptr>)
    requires t.Valid() && Stands(t, s, been) && s.stack == []
    ensures s.m == t.root
  {
  }

}
