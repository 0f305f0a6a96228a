/** The encodings of MessagePack (MessagePack specification, section "Formats") as a grammar, apart from
    the unparser and from the parser: every header form of every value, and maps with repeated keys and
    with integer keys. The parser (msgpack.cc) reads every encoding. */
module MsgPackForms {
  import opened Key
  import opened MsgPack

  /** One encoded value. `w` is the number of bytes of the number in its header; 0 is the form that
      keeps a length in the type byte. */
  datatype Item =
    | Nil
    | Boolean(b: bool)
    | FixInt(x: int)
    | UInt(w: nat, x: int)
    | SInt(w: nat, x: int)
    | Float32(bits: Bytes)
    | Float64(bits: Bytes)
    | Raw(w: nat, binary: bool, s: Bytes)
    | Array(w: nat, items: seq<Item>)
    | Map(w: nat, pairs: seq<(Item, Item)>)

  type Members = seq<(Bytes, Json)>

  // ----- the bytes of an encoding -----

  predicate IsKey(i: Item) {
    i.Raw? || i.FixInt? || i.UInt? || i.SInt?
  }

  /** A length `n` may be given in `w` bytes, or in the type byte if it is below `fix`. */
  predicate Length(w: nat, n: nat, fix: nat) {
    n < SIZE_LIMIT && if w == 0 then n < fix else n < Pow256(w)
  }

  ghost predicate Legal(i: Item) {
    match i
    case Nil => true
    case Boolean(_) => true
    case FixInt(x) => -0x20 <= x < 0x80
    case UInt(w, x) => w in {1, 2, 4, 8} && 0 <= x < Pow256(w)
    case SInt(w, x) => w in {1, 2, 4, 8} && -(Pow256(w) as int) <= 2 * x < Pow256(w)
    case Float32(bits) => |bits| == 4
    case Float64(bits) => |bits| == 8
    case Raw(w, binary, s) => w in {0, 1, 2, 4} && Length(w, |s|, if binary then 0 else 0x20)
    case Array(w, items) =>
      w in {0, 2, 4} && Length(w, |items|, 0x10) && forall k :: 0 <= k < |items| ==> Legal(items[k])
    case Map(w, pairs) =>
      && w in {0, 2, 4} && Length(w, |pairs|, 0x10)
      && forall k :: 0 <= k < |pairs| ==> IsKey(pairs[k].0) && Legal(pairs[k].0) && Legal(pairs[k].1)
  }

  /** The place of a width among the type bytes of its kind. */
  function Place(w: nat): nat {
    if w <= 1 then 0 else if w == 2 then 1 else if w == 4 then 2 else 3
  }

  function Lead(w: nat, n: nat, fix: Byte, code: Byte): Bytes
    requires fix + n < 0x100 || w != 0
    requires code <= 0xDD
  {
    if w == 0 then [fix + n] else [code + Place(w)] + Net(n, w)
  }

  function RawLead(w: nat, binary: bool, n: nat): Bytes
    requires Length(w, n, if binary then 0 else 0x20)
  {
    Lead(w, n, 0xA0, if binary then 0xC4 else 0xD9)
  }

  function ArrayLead(w: nat, n: nat): Bytes
    requires Length(w, n, 0x10)
  {
    Lead(w, n, 0x90, 0xDB)
  }

  function MapLead(w: nat, n: nat): Bytes
    requires Length(w, n, 0x10)
  {
    Lead(w, n, 0x80, 0xDD)
  }

  ghost function Wire(i: Item): (r: Bytes)
    requires Legal(i)
    decreases i, 0
  {
    match i
    case Nil => [0xC0]
    case Boolean(b) => [if b then 0xC3 else 0xC2]
    case FixInt(x) => [if x < 0 then 0x100 + x else x]
    case UInt(w, x) => [0xCC + Place(w)] + Net(x, w)
    case SInt(w, x) => [0xD0 + Place(w)] + Net(if x < 0 then x + Pow256(w) else x, w)
    case Float32(bits) => [0xCA] + bits
    case Float64(bits) => [0xCB] + bits
    case Raw(w, binary, s) => RawLead(w, binary, |s|) + s
    case Array(w, items) => ArrayLead(w, |items|) + Wires(items)
    case Map(w, pairs) => MapLead(w, |pairs|) + PairWires(pairs)
  }

  ghost function Wires(a: seq<Item>): Bytes
    requires forall k :: 0 <= k < |a| ==> Legal(a[k])
    decreases a, 1
  {
    if a == [] then [] else Wire(a[0]) + Wires(a[1..])
  }

  ghost function PairWires(m: seq<(Item, Item)>): Bytes
    requires forall k :: 0 <= k < |m| ==> Legal(m[k].0) && Legal(m[k].1)
    decreases m, 1
  {
    if m == [] then [] else PairWire(m[0]) + PairWires(m[1..])
  }

  ghost function PairWire(e: (Item, Item)): Bytes
    requires Legal(e.0) && Legal(e.1)
    decreases e, 0
  {
    Wire(e.0) + Wire(e.1)
  }

  // ----- what an encoding means -----

  /** The number that decimal digits spell, read from left to right. */
  function Decimal(s: Bytes): int {
    if s == [] then 0 else 10 * Decimal(s[..|s| - 1]) + (s[|s| - 1] as int - 48)
  }

  ghost predicate Numeral(s: Bytes, n: int) {
    s != [] && (forall k :: 0 <= k < |s| ==> 48 <= s[k] <= 57) && (s[0] == 48 ==> |s| == 1) && Decimal(s) == n
  }

  /** The decimal text of an integer: digits without leading zeros, after a minus sign if it is negative. */
  ghost predicate Spells(s: Bytes, i: int) {
    if i < 0 then s != [] && s[0] == 45 && Numeral(s[1..], -i) else Numeral(s, i)
  }

  /** The name that a key gives to a member. */
  ghost predicate Names(k: Item, s: Bytes)
    requires IsKey(k)
  {
    if k.Raw? then s == k.s else Spells(s, k.x)
  }

  /** Where a name first occurs. */
  function First(kv: Members, k: Bytes): (p: nat)
    ensures p <= |kv| && (p < |kv| ==> kv[p].0 == k) && forall a :: 0 <= a < p ==> kv[a].0 != k
  {
    if kv == [] || kv[0].0 == k then 0 else 1 + First(kv[1..], k)
  }

  /** `v` is what the last member of that name holds. */
  ghost predicate LastIs(kv: Members, k: Bytes, v: Json) {
    exists a :: 0 <= a < |kv| && kv[a] == (k, v) && forall b :: a < b < |kv| ==> kv[b].0 != k
  }

  ghost predicate AllLast(kv: Members, m: Members) {
    forall p :: 0 <= p < |m| ==> LastIs(kv, m[p].0, m[p].1)
  }

  ghost predicate AllNamed(kv: Members, m: Members) {
    forall a :: 0 <= a < |kv| ==> First(m, kv[a].0) < |m|
  }

  ghost predicate InFirstOrder(kv: Members, m: Members) {
    forall p, q :: 0 <= p < q < |m| ==> First(kv, m[p].0) < First(kv, m[q].0)
  }

  /** Of members in any order and with repeats, an object keeps each name once, in the order in which
      they first occur, with what the last member of the name holds. */
  ghost predicate LastWins(kv: Members, m: Members) {
    AllLast(kv, m) && AllNamed(kv, m) && InFirstOrder(kv, m)
  }

  ghost predicate Means(i: Item, j: Json)
    decreases i
  {
    match i
    case Nil => j == Null
    case Boolean(b) => j == Bool(b)
    case FixInt(x) => j == Int(x, false)
    case UInt(_, x) => j == Int(x, false)
    case SInt(_, x) => j == Int(x, false)
    case Float32(bits) => j == Single(bits)
    case Float64(bits) => j == Double(bits)
    case Raw(_, _, s) => j == Str(s)
    case Array(_, items) =>
      j.Arr? && |j.items| == |items| && forall k :: 0 <= k < |items| ==> Means(items[k], j.items[k])
    case Map(_, pairs) =>
      && j.Obj?
      && exists kv: Members ::
          && |kv| == |pairs| && LastWins(kv, j.members)
          && forall k :: 0 <= k < |pairs| ==>
              IsKey(pairs[k].0) && Names(pairs[k].0, kv[k].0) && Means(pairs[k].1, kv[k].1)
  }

  /** The bytes are an encoding of the value. */
  ghost predicate Encodes(bytes: Bytes, j: Json) {
    exists i :: Legal(i) && Wire(i) == bytes && Means(i, j)
  }

  // ----- integer names -----

  lemma {:induction false} DecimalPositive(s: Bytes)
    requires s != [] && s[0] > 48 && forall k :: 0 <= k < |s| ==> 48 <= s[k] <= 57
    ensures Decimal(s) > 0
  {
    if |s| > 1 { DecimalPositive(s[..|s| - 1]); }
  }

  lemma {:induction false} DigitsSpell(n: nat)
    ensures Numeral(Digits(n), n)
  {
    if n >= 10 {
      DigitsSpell(n / 10);
      var s := Digits(n / 10);
      assert (s + [48 + n % 10])[..|s|] == s;
      assert Decimal(s[..0]) == 0;
    } else {
      assert Digits(n) == [48 + n];
    }
  }

  lemma {:induction false} NumeralUnique(a: Bytes, b: Bytes, n: int)
    requires Numeral(a, n) && Numeral(b, n)
    ensures a == b
    decreases |a|
  {
    var a', b' := a[..|a| - 1], b[..|b| - 1];
    assert a == a' + [a[|a| - 1]] && b == b' + [b[|b| - 1]];
    if a' != [] { DecimalPositive(a'); }
    if b' != [] { DecimalPositive(b'); }
    if a' != [] && b' != [] { NumeralUnique(a', b', Decimal(a')); }
  }

  /** Just one text spells an integer, and the parser names the member by it. */
  lemma SpellsExactly(s: Bytes, i: int)
    ensures Spells(s, i) <==> s == KeyText(Int(i, false))
  {
    var n := if i < 0 then -i else i;
    var d := Digits(n);
    DigitsSpell(n);
    if i < 0 {
      assert ([45] + d)[1..] == d;
      if Spells(s, i) {
        NumeralUnique(s[1..], d, n);
        assert s == [45] + s[1..];
      }
    } else if Spells(s, i) {
      NumeralUnique(s, d, n);
    }
  }

  // ----- repeated names -----

  lemma TailChanged<T>(s: seq<T>, p: nat, x: T)
    requires s != [] && p < |s|
    ensures [s[0]] + (s[1..] + [x]) == s + [x]
    ensures p < |s| - 1 ==> [s[0]] + s[1..][p := x] == s[p + 1 := x]
  {
  }

  lemma {:induction false} InsertIs(m: Members, k: Bytes, v: Json)
    ensures Insert(m, k, v) == if First(m, k) < |m| then m[First(m, k) := (k, v)] else m + [(k, v)]
    decreases |m|
  {
    if m != [] && m[0].0 != k {
      InsertIs(m[1..], k, v);
      TailChanged(m, First(m[1..], k), (k, v));
    }
  }

  lemma FirstMore(kv: Members, k: Bytes, x: (Bytes, Json))
    ensures First(kv + [x], k) == if First(kv, k) < |kv| then First(kv, k) else if x.0 == k then |kv| else |kv| + 1
  {
    var p, q := First(kv + [x], k), First(kv, k);
    assert q < |kv| ==> (kv + [x])[q] == kv[q];
    assert p < |kv| ==> (kv + [x])[p] == kv[p];
    assert (kv + [x])[|kv|] == x;
  }

  lemma LastMore(kv: Members, k: Bytes, v: Json, x: (Bytes, Json))
    requires LastIs(kv, k, v) && x.0 != k
    ensures LastIs(kv + [x], k, v)
  {
    var a :| 0 <= a < |kv| && kv[a] == (k, v) && forall b :: a < b < |kv| ==> kv[b].0 != k;
    assert (kv + [x])[a] == (k, v);
  }

  lemma LastThere(kv: Members, k: Bytes, v: Json)
    requires LastIs(kv, k, v)
    ensures First(kv, k) < |kv|
  {
  }

  lemma LastUnique(kv: Members, k: Bytes, v: Json, v': Json)
    requires LastIs(kv, k, v) && LastIs(kv, k, v')
    ensures v == v'
  {
  }

  /** The names of `m` first occur where they did. */
  lemma FirstKept(kv: Members, m: Members, k: Bytes, v: Json, p: nat)
    requires AllLast(kv, m) && p < |m|
    ensures p < |Insert(m, k, v)| && Insert(m, k, v)[p].0 == m[p].0
    ensures First(kv + [(k, v)], m[p].0) == First(kv, m[p].0) < |kv|
  {
    InsertIs(m, k, v);
    hide LastIs, First, Insert;
    LastThere(kv, m[p].0, m[p].1);
    FirstMore(kv, m[p].0, (k, v));
  }

  lemma OrderNext(kv: Members, m: Members, k: Bytes, v: Json)
    requires LastWins(kv, m)
    ensures InFirstOrder(kv + [(k, v)], Insert(m, k, v))
  {
    hide LastIs, First, Insert;
    var kv', m' := kv + [(k, v)], Insert(m, k, v);
    InsertIs(m, k, v);
    FirstMore(kv, k, (k, v));
    forall p, q | 0 <= p < q < |m'| ensures First(kv', m'[p].0) < First(kv', m'[q].0) {
      FirstKept(kv, m, k, v, p);
      if q < |m| { FirstKept(kv, m, k, v, q); }
    }
  }

  lemma AllLastNext(kv: Members, m: Members, k: Bytes, v: Json)
    requires LastWins(kv, m)
    ensures AllLast(kv + [(k, v)], Insert(m, k, v))
  {
    var kv', m', at := kv + [(k, v)], Insert(m, k, v), First(m, k);
    assert kv'[|kv|] == (k, v) && LastIs(kv', k, v);
    InsertIs(m, k, v);
    hide LastIs, First, Insert;
    forall p | 0 <= p < |m'| && p != at ensures LastIs(kv', m'[p].0, m'[p].1) {
      if p > at { assert First(kv, m[at].0) < First(kv, m[p].0); }
      LastMore(kv, m[p].0, m[p].1, (k, v));
    }
  }

  /** Inserting a member keeps that the last one of each name counts. */
  lemma LastWinsNext(kv: Members, m: Members, k: Bytes, v: Json)
    requires LastWins(kv, m)
    ensures LastWins(kv + [(k, v)], Insert(m, k, v))
  {
    var kv', m' := kv + [(k, v)], Insert(m, k, v);
    AllLastNext(kv, m, k, v);
    OrderNext(kv, m, k, v);
    InsertIs(m, k, v);
    hide AllLast, InFirstOrder, First, Insert;
    assert First(m, k) < |m'| && m'[First(m, k)].0 == k;
    forall a | 0 <= a < |kv'| ensures First(m', kv'[a].0) < |m'| {
      if a < |kv| {
        var p := First(m, kv[a].0);
        assert m'[p].0 == kv'[a].0;
      }
    }
  }

  /** A name of `m` is at the same place in `m'` or behind it. */
  lemma NotBefore(kv: Members, m: Members, m': Members, c: nat)
    requires LastWins(kv, m) && LastWins(kv, m') && c < |m| && c <= |m'| && m[..c] == m'[..c]
    ensures c < |m'| && First(kv, m'[c].0) <= First(kv, m[c].0)
  {
    hide LastIs, First;
    LastThere(kv, m[c].0, m[c].1);
    var a := First(kv, m[c].0);
    assert kv[a].0 == m[c].0;
    forall d | 0 <= d < c ensures m'[d].0 != m[c].0 {
      assert m[..c][d] == m'[..c][d];
      assert First(kv, m[d].0) < First(kv, m[c].0);
    }
    assert c <= First(m', kv[a].0);
  }

  lemma SameNext(kv: Members, m: Members, m': Members, c: nat)
    requires LastWins(kv, m) && LastWins(kv, m') && c < |m| && c <= |m'| && m[..c] == m'[..c]
    ensures c < |m'| && m[c] == m'[c]
  {
    NotBefore(kv, m, m', c);
    NotBefore(kv, m', m, c);
    hide LastIs, First, AllNamed, InFirstOrder;
    LastThere(kv, m[c].0, m[c].1);
    LastThere(kv, m'[c].0, m'[c].1);
    assert kv[First(kv, m[c].0)].0 == m[c].0 == m'[c].0;
    LastUnique(kv, m[c].0, m[c].1, m'[c].1);
  }

  lemma TakeNext<T>(a: seq<T>, b: seq<T>, p: nat)
    requires p < |a| && p < |b| && a[..p] == b[..p] && a[p] == b[p]
    ensures a[..p + 1] == b[..p + 1]
  {
    assert a[..p + 1] == a[..p] + [a[p]] && b[..p + 1] == b[..p] + [b[p]];
  }

  lemma {:induction false} SamePrefix(kv: Members, m: Members, m': Members, p: nat)
    requires LastWins(kv, m) && LastWins(kv, m') && p <= |m|
    ensures p <= |m'| && m[..p] == m'[..p]
  {
    if p > 0 {
      hide LastWins;
      SamePrefix(kv, m, m', p - 1);
      SameNext(kv, m, m', p - 1);
      TakeNext(m, m', p - 1);
    }
  }

  /** Members in any order with repeats make one object. */
  lemma LastWinsUnique(kv: Members, m: Members, m': Members)
    requires LastWins(kv, m) && LastWins(kv, m')
    ensures m == m'
  {
    hide LastWins;
    SamePrefix(kv, m, m', |m|);
    SamePrefix(kv, m', m, |m'|);
    assert m == m[..|m|] && m' == m'[..|m'|];
  }

  // ----- every encoding is read -----

  /** The parser where it has read the head of an item, and its type byte and number. */
  ghost function Opened(stack: seq<Frame>, i: Item, j: Json): State
    requires Legal(i)
  {
    match i
    case Raw(_, _, s) => OpenText(stack, |s|)
    case Array(_, items) => OpenArray(stack, |items|)
    case Map(_, pairs) => OpenMap(stack, |pairs|)
    case _ => Deliver(stack, j)
  }

  ghost function Head(i: Item): Bytes
    requires Legal(i)
  {
    match i
    case Raw(w, binary, s) => RawLead(w, binary, |s|)
    case Array(w, items) => ArrayLead(w, |items|)
    case Map(w, pairs) => MapLead(w, |pairs|)
    case _ => Wire(i)
  }

  /** Two's complement is read back. */
  lemma SignedBack(w: nat, x: int)
    requires w in {1, 2, 4, 8} && -(Pow256(w) as int) <= 2 * x < Pow256(w)
    ensures var y := if x < 0 then x + Pow256(w) else x; 0 <= y < Pow256(w) && Signed(y, Pow256(w)) == x
  {
    Powers();
  }

  /** The head of a string, an array or a map. */
  lemma SizedReads(stack: seq<Frame>, i: Item, j: Json)
    requires Legal(i) && (i.Raw? || i.Array? || i.Map?)
    ensures Reads(Normal(stack), Head(i), Opened(stack, i, j))
  {
    Powers();
    hide Run, OpenText, OpenArray, OpenMap, Num, Net, Pow256;
    match i
    case Raw(w, binary, s) =>
      if w == 0 { OneReads(Normal(stack), 0xA0 + |s|); }
      else { NumberReads(stack, (if binary then 0xC4 else 0xD9) + Place(w), |s|, w); }
    case Array(w, items) =>
      if w == 0 { OneReads(Normal(stack), 0x90 + |items|); } else { NumberReads(stack, 0xDB + Place(w), |items|, w); }
    case Map(w, pairs) =>
      if w == 0 { OneReads(Normal(stack), 0x80 + |pairs|); } else { NumberReads(stack, 0xDD + Place(w), |pairs|, w); }
  }

  lemma HeadReads(stack: seq<Frame>, i: Item, j: Json)
    requires Legal(i) && Means(i, j)
    ensures Reads(Normal(stack), Head(i), Opened(stack, i, j))
  {
    Powers();
    hide Run, Deliver, OpenText, OpenArray, OpenMap, Num, Net, Pow256, LastWins, Names, Lead;
    match i
    case Nil => OneReads(Normal(stack), 0xC0);
    case Boolean(b) => OneReads(Normal(stack), if b then 0xC3 else 0xC2);
    case FixInt(x) => OneReads(Normal(stack), if x < 0 then 0x100 + x else x);
    case UInt(w, x) => NumberReads(stack, 0xCC + Place(w), x, w);
    case SInt(w, x) =>
      SignedBack(w, x);
      NumberReads(stack, 0xD0 + Place(w), if x < 0 then x + Pow256(w) else x, w);
    case Float32(bits) =>
      HeaderReads(stack, [0xCA] + bits);
      assert ([0xCA] + bits)[1..] == bits;
    case Float64(bits) =>
      HeaderReads(stack, [0xCB] + bits);
      assert ([0xCB] + bits)[1..] == bits;
    case _ => SizedReads(stack, i, j);
  }

  lemma RawReads(stack: seq<Frame>, w: nat, binary: bool, s: Bytes)
    requires Legal(Raw(w, binary, s))
    ensures Reads(Normal(stack), Wire(Raw(w, binary, s)), Deliver(stack, Str(s)))
  {
    var i := Raw(w, binary, s);
    HeadReads(stack, i, Str(s));
    hide Run, Deliver, Lead;
    if s == [] {
      assert Wire(i) == Head(i) + [] == Head(i);
    } else {
      TextReads(stack, [], s);
      assert [] + s == s;
      ReadsThen(Normal(stack), Head(i), Text(stack, [], |s|), s, Deliver(stack, Str(s)));
    }
  }

  ghost predicate ItemMeans(i: Item, j: Json) {
    Legal(i) && Means(i, j)
  }

  lemma ItemMeant(i: Item, j: Json)
    ensures ItemMeans(i, j) <==> Legal(i) && Means(i, j)
  {
  }

  ghost predicate PairMeans(e: (Item, Item), x: (Bytes, Json)) {
    IsKey(e.0) && Legal(e.0) && Legal(e.1) && Names(e.0, x.0) && Means(e.1, x.1)
  }

  ghost predicate ItemsMean(items: seq<Item>, js: seq<Json>) {
    |js| == |items| && forall k :: 0 <= k < |items| ==> ItemMeans(items[k], js[k])
  }

  ghost predicate PairsMean(pairs: seq<(Item, Item)>, kv: Members) {
    |kv| == |pairs| && forall k :: 0 <= k < |pairs| ==> PairMeans(pairs[k], kv[k])
  }

  lemma Uncons<T>(s: seq<T>)
    requires s != []
    ensures s == [s[0]] + s[1..] && (|s| == 1 ==> s[1..] == [] && s == [s[0]])
  {
  }

  lemma WiresCons(items: seq<Item>, js: seq<Json>)
    requires items != [] && ItemsMean(items, js)
    ensures ItemMeans(items[0], js[0]) && ItemsMean(items[1..], js[1..])
    ensures Wires(items) == Wire(items[0]) + Wires(items[1..])
    ensures |items| == 1 ==> Wires(items) == Wire(items[0])
  {
    hide Means, Legal, Wire;
    Uncons(items);
  }

  lemma PairsCons(pairs: seq<(Item, Item)>, kv: Members)
    requires pairs != [] && PairsMean(pairs, kv)
    ensures PairMeans(pairs[0], kv[0]) && PairsMean(pairs[1..], kv[1..])
    ensures PairWires(pairs) == PairWire(pairs[0]) + PairWires(pairs[1..])
    ensures |pairs| == 1 ==> PairWires(pairs) == PairWire(pairs[0])
  {
    hide Means, Legal, PairWire, Names;
    Uncons(pairs);
  }

  lemma NoMembers(m: Members)
    ensures LastWins([], m) <==> m == []
  {
    if m != [] { assert LastWins([], m) ==> LastIs([], m[0].0, m[0].1); }
  }

  lemma CompleteItem(stack: seq<Frame>, done: seq<Json>, left: nat, v: Json)
    ensures Deliver(stack + [InArray(done, left)], v)
      == if left == 0 then Complete(stack, Arr(done + [v])) else Normal(stack + [InArray(done + [v], left - 1)])
  {
    var top := stack + [InArray(done, left)];
    assert top[..|top| - 1] == stack;
  }

  /** From a state that waits for a value or a key, an encoding of one delivers it. */
  lemma {:induction false} ItemReads(stack: seq<Frame>, i: Item, j: Json)
    requires Legal(i) && Means(i, j) && (AtKey(stack) ==> IsKey(i))
    ensures Reads(Normal(stack), Wire(i), Deliver(stack, j))
    decreases i, 0
  {
    HeadReads(stack, i, j);
    if i.Raw? {
      RawReads(stack, i.w, i.binary, i.s);
    } else if i.Array? {
      ArrayReads(stack, i, j);
    } else if i.Map? {
      MapReads(stack, i, j);
    }
  }

  lemma {:induction false} ArrayReads(stack: seq<Frame>, i: Item, j: Json)
    requires i.Array? && Legal(i) && Means(i, j) && !AtKey(stack)
    ensures Reads(Normal(stack), Wire(i), Complete(stack, j))
    decreases i, -1
  {
    HeadReads(stack, i, j);
    var items := i.items;
    if items == [] {
      assert Wire(i) == Head(i) + [] == Head(i) && j == Arr([]);
    } else {
      ListRead(stack, [], items, j.items);
      assert [] + j.items == j.items;
      hide Run, Complete, Lead, Wires;
      ReadsThen(Normal(stack), Head(i), Normal(stack + [InArray([], |items| - 1)]), Wires(items), Complete(stack, j));
    }
  }

  lemma {:induction false} ListRead(stack: seq<Frame>, done: seq<Json>, items: seq<Item>, js: seq<Json>)
    requires items != [] && ItemsMean(items, js)
    ensures Reads(Normal(stack + [InArray(done, |items| - 1)]), Wires(items), Complete(stack, Arr(done + js)))
    decreases items, 1
  {
    hide Run, Complete, Deliver, Means, Legal, Wires;
    var top := stack + [InArray(done, |items| - 1)];
    WiresCons(items, js);
    Uncons(js);
    ItemReads(top, items[0], js[0]);
    CompleteItem(stack, done, |items| - 1, js[0]);
    if |items| > 1 {
      ListRead(stack, done + [js[0]], items[1..], js[1..]);
      assert done + [js[0]] + js[1..] == done + ([js[0]] + js[1..]);
      ReadsThen(Normal(top), Wire(items[0]), Deliver(top, js[0]), Wires(items[1..]), Complete(stack, Arr(done + js)));
    }
  }

  lemma NoPairs(i: Item)
    requires i.Map? && Legal(i) && i.pairs == []
    ensures Wire(i) == Head(i)
  {
    assert Wire(i) == Head(i) + [] == Head(i);
  }

  /** The members of a map as they come. */
  lemma MapMeans(i: Item, j: Json) returns (kv: Members)
    requires i.Map? && Legal(i) && Means(i, j)
    ensures j.Obj? && PairsMean(i.pairs, kv) && LastWins(kv, j.members) && (kv == [] ==> j.members == [])
    ensures |kv| == |i.pairs|
  {
    hide LastWins, Names;
    kv :| |kv| == |i.pairs| && LastWins(kv, j.members)
      && forall k :: 0 <= k < |i.pairs| ==>
        IsKey(i.pairs[k].0) && Names(i.pairs[k].0, kv[k].0) && Means(i.pairs[k].1, kv[k].1);
    NoMembers(j.members);
  }

  lemma {:induction false} MapReads(stack: seq<Frame>, i: Item, j: Json)
    requires i.Map? && Legal(i) && Means(i, j) && !AtKey(stack)
    ensures Reads(Normal(stack), Wire(i), Complete(stack, j))
    decreases i, -1
  {
    HeadReads(stack, i, j);
    var pairs := i.pairs;
    var kv := MapMeans(i, j);
    hide Means, Legal, LastWins, Run, Complete, Lead, PairWires, PairsMean;
    if pairs == [] {
      NoPairs(i);
    } else {
      assert [] + kv == kv;
      NoMembers([]);
      PairsRead(stack, [], [], pairs, kv, j.members);
      ReadsThen(Normal(stack), Head(i), Normal(stack + [InKey([], |pairs| - 1)]), PairWires(pairs), Complete(stack, j));
    }
  }

  /** A key names the member that comes next. */
  lemma {:induction false} KeyReads(stack: seq<Frame>, done: Members, left: nat, k: Item, s: Bytes)
    requires Legal(k) && IsKey(k) && Names(k, s)
    ensures Reads(Normal(stack + [InKey(done, left)]), Wire(k), Normal(stack + [InValue(done, s, left)]))
    decreases k, 1
  {
    var top := stack + [InKey(done, left)];
    var j := if k.Raw? then Str(k.s) else Int(k.x, false);
    ItemReads(top, k, j);
    if !k.Raw? { SpellsExactly(s, k.x); }
    assert top[..|top| - 1] == stack;
  }

  lemma {:induction false} PairRead(stack: seq<Frame>, done: Members, left: nat, e: (Item, Item), x: (Bytes, Json))
    requires PairMeans(e, x)
    ensures Reads(Normal(stack + [InKey(done, left)]), PairWire(e),
              if left == 0 then Complete(stack, Obj(Insert(done, x.0, x.1)))
              else Normal(stack + [InKey(Insert(done, x.0, x.1), left - 1)]))
    decreases e, 0
  {
    var top := stack + [InValue(done, x.0, left)];
    hide Run, Complete, Insert, Means, Names;
    KeyReads(stack, done, left, e.0, x.0);
    ItemReads(top, e.1, x.1);
    CompleteMember(stack, done, x.0, left, x.1);
    ReadsThen(Normal(stack + [InKey(done, left)]), Wire(e.0), Normal(top), Wire(e.1), Deliver(top, x.1));
  }

  lemma {:induction false} PairsRead(stack: seq<Frame>, seen: Members, done: Members, pairs: seq<(Item, Item)>,
      kv: Members, m: Members)
    requires pairs != [] && PairsMean(pairs, kv) && LastWins(seen, done) && LastWins(seen + kv, m)
    ensures Reads(Normal(stack + [InKey(done, |pairs| - 1)]), PairWires(pairs), Complete(stack, Obj(m)))
    decreases pairs, 1
  {
    hide Run, LastWins, Complete, Insert, Means, Legal, Names, PairWires, PairWire;
    var left, x := |pairs| - 1, kv[0];
    var done' := Insert(done, x.0, x.1);
    PairsCons(pairs, kv);
    Uncons(kv);
    PairRead(stack, done, left, pairs[0], x);
    LastWinsNext(seen, done, x.0, x.1);
    if left == 0 {
      LastWinsUnique(seen + kv, m, done');
    } else {
      assert seen + [x] + kv[1..] == seen + ([x] + kv[1..]);
      PairsRead(stack, seen + [x], done', pairs[1..], kv[1..], m);
      ReadsThen(Normal(stack + [InKey(done, left)]), PairWire(pairs[0]), Normal(stack + [InKey(done', left - 1)]),
                PairWires(pairs[1..]), Complete(stack, Obj(m)));
    }
  }

  /** Every encoding of a value is parsed to it, and whatever follows is left alone. */
  lemma EncodingRead(bytes: Bytes, rest: Bytes, j: Json)
    requires Encodes(bytes, j)
    ensures Run(Normal([]), bytes + rest) == (Final(j), |bytes|)
  {
    var i :| Legal(i) && Wire(i) == bytes && Means(i, j);
    hide Run, Legal, Wire, Means;
    ItemReads([], i, j);
    RunSplit(Normal([]), bytes, rest);
  }
}
