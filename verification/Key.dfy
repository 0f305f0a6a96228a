/** Keys as byte strings cut into 8-byte slices (masstree_key.hh, string_slice.hh): a slice is a
    big-endian number padded with zero bytes. Comparing keys slice by slice is comparing bytes. */
module Key {
  import opened NodeStore

  type Byte = b: int | 0 <= b < 256
  type Bytes = seq<Byte>

  /** `key::ikey_size`. */
  const SLICE: nat := 8

  function Pow256(n: nat): (p: nat)
    ensures p > 0
  {
    if n == 0 then 1 else 256 * Pow256(n - 1)
  }

  /** The big-endian value of a byte string. */
  function Num(s: Bytes): nat {
    if s == [] then 0 else s[0] * Pow256(|s| - 1) + Num(s[1..])
  }

  lemma {:induction false} NumBound(s: Bytes)
    ensures Num(s) < Pow256(|s|)
  {
    if s != [] {
      NumBound(s[1..]);
      HigherDigit(s[0], 256, Pow256(|s| - 1), Num(s[1..]), 0);
    }
  }

  /** The `w` bytes of a number, most significant first (`host_to_net_order`, `write_in_net_order`). */
  function Net(x: nat, w: nat): (r: Bytes)
    ensures |r| == w
  {
    if w == 0 then [] else Net(x / 256, w - 1) + [x % 256]
  }

  lemma {:induction false} NumSnoc(s: Bytes, b: Byte)
    ensures Num(s + [b]) == Num(s) * 256 + b
  {
    if s == [] {
      assert [b][1..] == [] && s + [b] == [b];
    } else {
      assert (s + [b])[1..] == s[1..] + [b];
      NumSnoc(s[1..], b);
      assert Pow256(|s|) == 256 * Pow256(|s| - 1);
      Scaled(s[0], Pow256(|s| - 1));
    }
  }

  lemma Scaled(x: int, p: int)
    ensures x * (256 * p) == (x * p) * 256
  {
  }

  /** What is written is read back. */
  lemma {:induction false} NetRead(x: nat, w: nat)
    requires x < Pow256(w)
    ensures Num(Net(x, w)) == x
  {
    if w > 0 {
      NetRead(x / 256, w - 1);
      NumSnoc(Net(x / 256, w - 1), x % 256);
    }
  }

  lemma Quotient(x: int, b: Byte)
    ensures (x * 256 + b) / 256 == x && (x * 256 + b) % 256 == b
  {
  }

  lemma {:induction false} NumWritten(s: Bytes)
    ensures Net(Num(s), |s|) == s
    decreases |s|
  {
    if s != [] {
      var n := |s| - 1;
      assert s == s[..n] + [s[n]];
      NumSnoc(s[..n], s[n]);
      Quotient(Num(s[..n]), s[n]);
      NumWritten(s[..n]);
    }
  }

  /** The first `w` bytes, with zero bytes for the missing ones. */
  function PadTo(s: Bytes, w: nat): (r: Bytes)
    ensures |r| == w
  {
    if w == 0 then [] else if s == [] then [0] + PadTo([], w - 1) else [s[0]] + PadTo(s[1..], w - 1)
  }

  lemma SliceFits()
    ensures Pow256(SLICE) == TOP
  {
    assert Pow256(4) == 0x1_0000_0000;
    assert Pow256(6) == 0x1_0000_0000_0000;
    assert Pow256(8) == 256 * Pow256(7);
  }

  /** `string_slice::make_comparable`. */
  function Slice(k: Bytes): Ikey {
    SliceFits();
    NumBound(PadTo(k, SLICE));
    Num(PadTo(k, SLICE))
  }

  /** The entry under which a leaf of some layer keeps what is left of a key. */
  function EntryOf(k: Bytes): (e: EntryKey)
    ensures e.len <= SLICE + 1
  {
    EntryKey(Slice(k), if |k| > SLICE then SLICE + 1 else |k|)
  }

  // ----- a slice determines its bytes -----

  lemma {:induction false} NumLess(a: Bytes, b: Bytes)
    requires |a| == |b|
    ensures Num(a) < Num(b) <==> LexLess(a, b)
    ensures Num(a) == Num(b) <==> a == b
  {
    if a != [] {
      NumLess(a[1..], b[1..]);
      NumBound(a[1..]);
      NumBound(b[1..]);
      var p := Pow256(|a| - 1);
      if a[0] < b[0] {
        HigherDigit(a[0], b[0], p, Num(a[1..]), Num(b[1..]));
      } else if b[0] < a[0] {
        HigherDigit(b[0], a[0], p, Num(b[1..]), Num(a[1..]));
      } else {
        assert a == [a[0]] + a[1..] && b == [b[0]] + b[1..];
      }
    }
  }

  lemma HigherDigit(x: nat, y: nat, p: nat, u: nat, v: nat)
    requires x < y && u < p
    ensures x * p + u < y * p + v
  {
    assert (x + 1) * p <= y * p;
  }

  /** Equal paddings of strings of one length class are paddings of the same bytes. */
  lemma {:induction false} PadEqual(a: Bytes, b: Bytes, w: nat)
    requires PadTo(a, w) == PadTo(b, w)
    requires |a| == |b| || (|a| > w && |b| > w)
    ensures if |a| <= w then a == b else a[..w] == b[..w]
  {
    if w > 0 && a != [] {
      assert PadTo(a, w)[0] == a[0] && PadTo(b, w)[0] == b[0];
      assert PadTo(a, w)[1..] == PadTo(a[1..], w - 1) && PadTo(b, w)[1..] == PadTo(b[1..], w - 1);
      PadEqual(a[1..], b[1..], w - 1);
      if |a| <= w {
        assert a == [a[0]] + a[1..] && b == [b[0]] + b[1..];
      } else {
        assert a[..w] == [a[0]] + a[1..][..w - 1] && b[..w] == [b[0]] + b[1..][..w - 1];
      }
    }
  }

  /** Some key's entry. */
  ghost predicate IsEntry(e: EntryKey) {
    exists r: Bytes :: EntryOf(r) == e
  }

  lemma EntryIsEntry(r: Bytes)
    ensures IsEntry(EntryOf(r))
  {
  }

  /** The bytes of a slice that an entry's length counts (`assign_store_ikey`, `assign_store_length`). */
  function Head(e: EntryKey): (h: Bytes)
    ensures |h| == if e.len > SLICE then SLICE else e.len
  {
    Net(e.ikey, SLICE)[..if e.len > SLICE then SLICE else e.len]
  }

  lemma {:induction false} PadPrefix(r: Bytes, w: nat)
    ensures |r| <= w ==> PadTo(r, w)[..|r|] == r
    ensures |r| > w ==> PadTo(r, w) == r[..w]
  {
    if w > 0 && r != [] {
      PadPrefix(r[1..], w - 1);
      assert PadTo(r, w) == [r[0]] + PadTo(r[1..], w - 1);
      if |r| > w { assert r[..w] == [r[0]] + r[1..][..w - 1]; } else { assert r == [r[0]] + r[1..]; }
    }
  }

  /** They are the key's own. */
  lemma HeadIs(r: Bytes)
    ensures Head(EntryOf(r)) == if |r| > SLICE then r[..SLICE] else r
  {
    NumWritten(PadTo(r, SLICE));
    PadPrefix(r, SLICE);
  }

  /** Keys under one entry are equal, or go on after the same slice. */
  lemma SameEntry(a: Bytes, b: Bytes)
    requires EntryOf(a) == EntryOf(b)
    ensures if |a| <= SLICE then a == b else |b| > SLICE && a[..SLICE] == b[..SLICE]
    ensures |a| > SLICE ==> (a == b <==> a[SLICE..] == b[SLICE..])
  {
    NumLess(PadTo(a, SLICE), PadTo(b, SLICE));
    PadEqual(a, b, SLICE);
    if |a| > SLICE { assert a == a[..SLICE] + a[SLICE..] && b == b[..SLICE] + b[SLICE..]; }
  }

  // ----- order -----

  /** Lexicographic order on byte strings. */
  predicate LexLess(a: Bytes, b: Bytes) {
    b != [] && (a == [] || a[0] < b[0] || (a[0] == b[0] && LexLess(a[1..], b[1..])))
  }

  /** Order layer by layer: by entry, and below a common entry by what is left. */
  predicate LayerLess(a: Bytes, b: Bytes) {
    || Less(EntryOf(a), EntryOf(b))
    || (EntryOf(a) == EntryOf(b) && |a| > SLICE && LayerLess(a[SLICE..], b[if |b| > SLICE then SLICE else |b|..]))
  }

  /** The length class for slices of `w` bytes. */
  function Class(s: Bytes, w: nat): nat {
    if |s| > w then w + 1 else |s|
  }

  lemma {:induction false} PadNothing(b: Bytes, w: nat)
    ensures !LexLess(PadTo(b, w), PadTo([], w))
    ensures LexLess(PadTo([], w), PadTo(b, w)) || PadTo([], w) == PadTo(b, w)
  {
    if w > 0 {
      var r := if b == [] then [] else b[1..];
      PadNothing(r, w - 1);
      assert PadTo(b, w)[1..] == PadTo(r, w - 1) && PadTo([], w)[1..] == PadTo([], w - 1);
      assert PadTo(b, w) == [PadTo(b, w)[0]] + PadTo(r, w - 1) && PadTo([], w) == [0] + PadTo([], w - 1);
    }
  }

  /** Byte order is the order of the first `w` bytes, then of the length class, then of the rest. */
  lemma {:induction false} PadLess(a: Bytes, b: Bytes, w: nat)
    ensures LexLess(a, b) <==>
      || LexLess(PadTo(a, w), PadTo(b, w))
      || (PadTo(a, w) == PadTo(b, w)
          && (Class(a, w) < Class(b, w) || (|a| > w && |b| > w && LexLess(a[w..], b[w..]))))
  {
    if a == [] {
      PadNothing(b, w);
    } else if b == [] {
      PadNothing(a, w);
    } else if w > 0 {
      PadLess(a[1..], b[1..], w - 1);
      assert PadTo(a, w)[1..] == PadTo(a[1..], w - 1) && PadTo(b, w)[1..] == PadTo(b[1..], w - 1);
      assert PadTo(a, w) == [a[0]] + PadTo(a[1..], w - 1) && PadTo(b, w) == [b[0]] + PadTo(b[1..], w - 1);
      if |a| > w && |b| > w { assert a[w..] == a[1..][w - 1..] && b[w..] == b[1..][w - 1..]; }
    }
  }

  /** Comparing keys layer by layer is comparing them byte by byte. */
  lemma {:induction false} LayerOrder(a: Bytes, b: Bytes)
    ensures LayerLess(a, b) <==> LexLess(a, b)
    decreases |a|
  {
    PadLess(a, b, SLICE);
    NumLess(PadTo(a, SLICE), PadTo(b, SLICE));
    if |a| > SLICE && |b| > SLICE { LayerOrder(a[SLICE..], b[SLICE..]); }
  }

  // ----- the comparison in the code -----

  /** `leaf::ksuf_keylenx` and `leaf::layer_keylenx`. */
  const KSUF_KEYLENX: nat := 64
  const LAYER_KEYLENX: nat := 128

  /** The length class of a slot whose `keylenx_` is `x`. */
  function SlotClass(x: nat): nat {
    if x <= SLICE then x else SLICE + 1
  }

  /** `key::compare(ikey, keylenx)` for a key with what is left `k`. */
  function Compare(k: Bytes, ikey: Ikey, keylenx: nat): int {
    if Slice(k) < ikey then -1
    else if Slice(k) > ikey then 1
    else if |k| > SLICE then (if keylenx <= SLICE then 1 else 0)
    else |k| - keylenx
  }

  /** It is the order of entries: a suffix and a layer under one slice count as the same entry. */
  lemma CompareIsLess(k: Bytes, ikey: Ikey, keylenx: nat)
    requires keylenx <= SLICE || keylenx == KSUF_KEYLENX || keylenx == LAYER_KEYLENX
    ensures var e := EntryKey(ikey, SlotClass(keylenx));
      && (Compare(k, ikey, keylenx) < 0 <==> Less(EntryOf(k), e))
      && (Compare(k, ikey, keylenx) == 0 <==> EntryOf(k) == e)
  {
  }
}
