/** The parser (msgpack.cc) completes a value on nothing but encodings of it: what it has read at any time
    is the beginning of an encoding. */
module MsgPackExact {
  import opened Key
  import opened MsgPack
  import opened MsgPackForms
  import opened MsgPackParser

  /** The encoding of an open container as far as it has been read: the items or members that are
      complete, and perhaps a key. */
  datatype Part =
    | InList(w: nat, n: nat, items: seq<Item>)
    | AtName(w: nat, n: nat, pairs: seq<(Item, Item)>, kv: Members)
    | AtValue(w: nat, n: nat, pairs: seq<(Item, Item)>, kv: Members, key: Item)

  ghost predicate PartMeans(f: Frame, p: Part) {
    && p.w in {0, 2, 4} && Length(p.w, p.n, 0x10)
    && match f
       case InArray(done, left) => p.InList? && p.n == |p.items| + 1 + left && ItemsMean(p.items, done)
       case InKey(done, left) =>
         p.AtName? && p.n == |p.pairs| + 1 + left && PairsMean(p.pairs, p.kv) && LastWins(p.kv, done)
       case InValue(done, s, left) =>
         && p.AtValue? && p.n == |p.pairs| + 1 + left && PairsMean(p.pairs, p.kv) && LastWins(p.kv, done)
         && IsKey(p.key) && Legal(p.key) && Names(p.key, s)
  }

  ghost function PartWire(f: Frame, p: Part): Bytes
    requires PartMeans(f, p)
  {
    match p
    case InList(w, n, items) => ArrayLead(w, n) + Wires(items)
    case AtName(w, n, pairs, _) => MapLead(w, n) + PairWires(pairs)
    case AtValue(w, n, pairs, _, key) => MapLead(w, n) + PairWires(pairs) + Wire(key)
  }

  ghost predicate StackMeans(stack: seq<Frame>, parts: seq<Part>) {
    |parts| == |stack| && forall k :: 0 <= k < |stack| ==> PartMeans(stack[k], parts[k])
  }

  ghost function StackWire(stack: seq<Frame>, parts: seq<Part>): Bytes
    requires StackMeans(stack, parts)
  {
    if stack == [] then [] else
      var n := |stack| - 1;
      StackWire(stack[..n], parts[..n]) + PartWire(stack[n], parts[n])
  }

  lemma Pushed(stack: seq<Frame>, parts: seq<Part>, f: Frame, p: Part)
    requires StackMeans(stack, parts) && PartMeans(f, p)
    ensures StackMeans(stack + [f], parts + [p])
    ensures StackWire(stack + [f], parts + [p]) == StackWire(stack, parts) + PartWire(f, p)
  {
    hide PartMeans, PartWire;
    assert (stack + [f])[..|stack|] == stack && (parts + [p])[..|stack|] == parts;
  }

  /** The bytes read so far are those of the open containers and of the token being read, or encode the
      value that is complete. */
  ghost predicate Traced(s: State, bytes: Bytes) {
    match s
    case Normal(stack) => exists parts :: StackMeans(stack, parts) && StackWire(stack, parts) == bytes
    case Header(stack, h, _) => exists parts :: StackMeans(stack, parts) && StackWire(stack, parts) + h == bytes
    case Text(stack, t, need) => exists parts, w, binary :: TextTraced(stack, t, need, bytes, parts, w, binary)
    case Final(j) => Encodes(bytes, j)
    case Error => true
    case TooBig => true
  }

  ghost predicate TextTraced(stack: seq<Frame>, t: Bytes, need: nat, bytes: Bytes, parts: seq<Part>, w: nat,
      binary: bool)
  {
    && StackMeans(stack, parts) && w in {0, 1, 2, 4} && Length(w, need, if binary then 0 else 0x20)
    && StackWire(stack, parts) + RawLead(w, binary, need) + t == bytes
  }

  lemma {:induction false} WiresSnoc(a: seq<Item>, i: Item)
    requires Legal(i) && forall k :: 0 <= k < |a| ==> Legal(a[k])
    ensures Wires(a + [i]) == Wires(a) + Wire(i)
    decreases |a|
  {
    hide Legal, Wire;
    if a == [] {
      assert [i][1..] == [] && [] + [i] == [i];
    } else {
      WiresSnoc(a[1..], i);
      assert (a + [i])[1..] == a[1..] + [i];
    }
  }

  lemma {:induction false} PairWiresSnoc(m: seq<(Item, Item)>, e: (Item, Item))
    requires Legal(e.0) && Legal(e.1) && forall k :: 0 <= k < |m| ==> Legal(m[k].0) && Legal(m[k].1)
    ensures PairWires(m + [e]) == PairWires(m) + PairWire(e)
    decreases |m|
  {
    hide Legal, PairWire;
    if m == [] {
      assert [e][1..] == [] && [] + [e] == [e];
    } else {
      PairWiresSnoc(m[1..], e);
      assert (m + [e])[1..] == m[1..] + [e];
    }
  }

  lemma ItemsSnoc(items: seq<Item>, js: seq<Json>, i: Item, v: Json)
    requires ItemsMean(items, js) && ItemMeans(i, v)
    ensures ItemsMean(items + [i], js + [v]) && Wires(items + [i]) == Wires(items) + Wire(i)
  {
    WiresSnoc(items, i);
    hide Legal, Means;
  }

  /** An item more in an array, and the last one. */
  lemma ItemMore(done: seq<Json>, left: nat, p: Part, i: Item, v: Json) returns (q: Part)
    requires PartMeans(InArray(done, left), p) && ItemMeans(i, v) && left > 0
    ensures PartMeans(InArray(done + [v], left - 1), q)
    ensures PartWire(InArray(done + [v], left - 1), q) == PartWire(InArray(done, left), p) + Wire(i)
  {
    ItemsSnoc(p.items, done, i, v);
    hide Wires, Wire, ArrayLead, ItemsMean, ItemMeans;
    q := InList(p.w, p.n, p.items + [i]);
  }

  lemma ItemLast(done: seq<Json>, p: Part, i: Item, v: Json) returns (a: Item)
    requires PartMeans(InArray(done, 0), p) && ItemMeans(i, v)
    ensures ItemMeans(a, Arr(done + [v])) && Wire(a) == PartWire(InArray(done, 0), p) + Wire(i)
  {
    ItemsSnoc(p.items, done, i, v);
    a := Array(p.w, p.items + [i]);
    WireArray(a);
    hide Wires, Wire, ArrayLead, ItemMeans;
    ItemMeant(a, Arr(done + [v]));
  }

  lemma WireArray(a: Item)
    requires a.Array? && Legal(a)
    ensures Wire(a) == ArrayLead(a.w, |a.items|) + Wires(a.items)
  {
  }

  lemma WireMap(a: Item)
    requires a.Map? && Legal(a)
    ensures Wire(a) == MapLead(a.w, |a.pairs|) + PairWires(a.pairs)
  {
  }

  lemma PairsSnoc(pairs: seq<(Item, Item)>, kv: Members, e: (Item, Item), x: (Bytes, Json))
    requires PairsMean(pairs, kv) && PairMeans(e, x)
    ensures PairsMean(pairs + [e], kv + [x]) && PairWires(pairs + [e]) == PairWires(pairs) + PairWire(e)
  {
    PairWiresSnoc(pairs, e);
    hide Legal, Means, Names;
  }

  lemma Regrouped(a: Bytes, b: Bytes, c: Bytes, d: Bytes)
    ensures a + (b + (c + d)) == a + b + c + d
  {
  }

  lemma MemberStep(done: Members, s: Bytes, left: nat, p: Part, i: Item, v: Json)
    requires PartMeans(InValue(done, s, left), p) && ItemMeans(i, v)
    ensures PairsMean(p.pairs + [(p.key, i)], p.kv + [(s, v)])
    ensures LastWins(p.kv + [(s, v)], Insert(done, s, v))
    ensures MapLead(p.w, p.n) + PairWires(p.pairs + [(p.key, i)]) == PartWire(InValue(done, s, left), p) + Wire(i)
  {
    var e := (p.key, i);
    LastWinsNext(p.kv, done, s, v);
    hide Legal, Means, Names, PairsMean, PairWires, Wire, LastWins, Insert, MapLead;
    assert PairMeans(e, (s, v));
    PairsSnoc(p.pairs, p.kv, e, (s, v));
    Regrouped(MapLead(p.w, p.n), PairWires(p.pairs), Wire(p.key), Wire(i));
  }

  /** A value completes a member, and the last one completes the object. */
  lemma MemberMore(done: Members, s: Bytes, left: nat, p: Part, i: Item, v: Json) returns (q: Part)
    requires PartMeans(InValue(done, s, left), p) && ItemMeans(i, v) && left > 0
    ensures PartMeans(InKey(Insert(done, s, v), left - 1), q)
    ensures PartWire(InKey(Insert(done, s, v), left - 1), q) == PartWire(InValue(done, s, left), p) + Wire(i)
  {
    hide PairWires, Wire, MapLead, PairsMean, ItemMeans, Legal, Names, LastWins, Insert;
    MemberStep(done, s, left, p, i, v);
    q := AtName(p.w, p.n, p.pairs + [(p.key, i)], p.kv + [(s, v)]);
  }

  lemma MemberLast(done: Members, s: Bytes, p: Part, i: Item, v: Json) returns (a: Item)
    requires PartMeans(InValue(done, s, 0), p) && ItemMeans(i, v)
    ensures ItemMeans(a, Obj(Insert(done, s, v))) && Wire(a) == PartWire(InValue(done, s, 0), p) + Wire(i)
  {
    hide PairWires, Wire, MapLead, PairsMean, ItemMeans, Names, LastWins, Insert;
    MemberStep(done, s, 0, p, i, v);
    a := Map(p.w, p.pairs + [(p.key, i)]);
    MapMeant(a, p.kv + [(s, v)], Insert(done, s, v));
    WireMap(a);
  }

  lemma MapMeant(a: Item, kv: Members, m: Members)
    requires a.Map? && a.w in {0, 2, 4} && Length(a.w, |a.pairs|, 0x10) && PairsMean(a.pairs, kv) && LastWins(kv, m)
    ensures ItemMeans(a, Obj(m)) && Legal(a)
  {
    hide LastWins, Names;
  }

  lemma Popped(stack: seq<Frame>, parts: seq<Part>)
    requires StackMeans(stack, parts) && stack != []
    ensures var n := |stack| - 1;
      && n == |parts| - 1 && StackMeans(stack[..n], parts[..n]) && PartMeans(stack[n], parts[n])
      && StackWire(stack, parts) == StackWire(stack[..n], parts[..n]) + PartWire(stack[n], parts[n])
  {
    hide PartMeans, PartWire;
  }

  lemma GivenUpTraced(bytes: Bytes)
    ensures Traced(Error, bytes) && Traced(TooBig, bytes)
  {
  }

  lemma FinalTraced(parts: seq<Part>, i: Item, v: Json)
    requires StackMeans([], parts) && ItemMeans(i, v)
    ensures Traced(Final(v), StackWire([], parts) + Wire(i))
  {
    assert [] + Wire(i) == Wire(i) && Encodes(Wire(i), v);
  }

  /** The innermost container goes on. */
  lemma TopTraced(stack: seq<Frame>, parts: seq<Part>, f: Frame, p: Part, bytes: Bytes)
    requires StackMeans(stack, parts) && PartMeans(f, p) && bytes == StackWire(stack, parts) + PartWire(f, p)
    ensures Traced(Normal(stack + [f]), bytes)
  {
    hide PartMeans, PartWire, StackMeans, StackWire;
    Pushed(stack, parts, f, p);
  }

  /** A complete value: the containers that it completes are encoded, and the rest is as it was. */
  lemma {:induction false} CompleteTraced(stack: seq<Frame>, parts: seq<Part>, i: Item, v: Json)
    requires StackMeans(stack, parts) && ItemMeans(i, v)
    ensures Traced(Complete(stack, v), StackWire(stack, parts) + Wire(i))
    decreases |stack|
  {
    hide PartMeans, PartWire, Insert, Wire, Traced, StackMeans, StackWire, Legal, Means;
    if stack == [] {
      FinalTraced(parts, i, v);
    } else {
      hide ItemMeans;
      var n := |stack| - 1;
      Popped(stack, parts);
      var rest, parts', f, p := stack[..n], parts[..n], stack[n], parts[n];
      MsgPack.Regroup(StackWire(rest, parts'), PartWire(f, p), Wire(i));
      match f
      case InArray(a, left) =>
        if left == 0 {
          var i' := ItemLast(a, p, i, v);
          CompleteTraced(rest, parts', i', Arr(a + [v]));
        } else {
          var q := ItemMore(a, left, p, i, v);
          TopTraced(rest, parts', InArray(a + [v], left - 1), q, StackWire(stack, parts) + Wire(i));
        }
      case InValue(m, k, left) =>
        if left == 0 {
          var i' := MemberLast(m, k, p, i, v);
          CompleteTraced(rest, parts', i', Obj(Insert(m, k, v)));
        } else {
          var q := MemberMore(m, k, left, p, i, v);
          TopTraced(rest, parts', InKey(Insert(m, k, v), left - 1), q, StackWire(stack, parts) + Wire(i));
        }
      case InKey(_, _) => GivenUpTraced(StackWire(stack, parts) + Wire(i));
    }
  }

  /** What a key is called is what its text spells. */
  lemma KeyNamed(i: Item, v: Json)
    requires ItemMeans(i, v) && (v.Str? || v.Int?)
    ensures IsKey(i) && Legal(i) && Names(i, KeyText(v))
  {
    if v.Int? { SpellsExactly(KeyText(v), v.i); }
    hide Spells, KeyText;
  }

  lemma KeyRead(f: Frame, p: Part, i: Item, v: Json) returns (q: Part)
    requires f.InKey? && PartMeans(f, p) && ItemMeans(i, v) && (v.Str? || v.Int?)
    ensures PartMeans(InValue(f.members, KeyText(v), f.left), q)
    ensures PartWire(InValue(f.members, KeyText(v), f.left), q) == PartWire(f, p) + Wire(i)
  {
    KeyNamed(i, v);
    hide ItemMeans, Legal, Names, PairsMean, LastWins, KeyText, Wire, PairWires, MapLead;
    q := AtValue(p.w, p.n, p.pairs, p.kv, i);
  }

  lemma KeyTraced(stack: seq<Frame>, parts: seq<Part>, i: Item, v: Json)
    requires StackMeans(stack, parts) && ItemMeans(i, v) && AtKey(stack)
    ensures Traced(Deliver(stack, v), StackWire(stack, parts) + Wire(i))
  {
    hide PartMeans, PartWire, ItemMeans, KeyText, Wire, StackMeans, StackWire, Traced;
    var n := |stack| - 1;
    Popped(stack, parts);
    var f, p := stack[n], parts[n];
    ItemMeant(i, v);
    MsgPack.Regroup(StackWire(stack[..n], parts[..n]), PartWire(f, p), Wire(i));
    if v.Str? || v.Int? {
      var q := KeyRead(f, p, i, v);
      TopTraced(stack[..n], parts[..n], InValue(f.members, KeyText(v), f.left), q, StackWire(stack, parts) + Wire(i));
    } else {
      GivenUpTraced(StackWire(stack, parts) + Wire(i));
    }
  }

  lemma DeliverTraced(stack: seq<Frame>, parts: seq<Part>, i: Item, v: Json)
    requires StackMeans(stack, parts) && ItemMeans(i, v)
    ensures Traced(Deliver(stack, v), StackWire(stack, parts) + Wire(i))
  {
    hide StackMeans, StackWire, ItemMeans, Traced, Complete, Wire;
    if AtKey(stack) { KeyTraced(stack, parts, i, v); } else { CompleteTraced(stack, parts, i, v); }
  }

  // ----- one byte -----

  lemma NormalTraced(stack: seq<Frame>, parts: seq<Part>, bytes: Bytes)
    requires StackMeans(stack, parts) && StackWire(stack, parts) == bytes
    ensures Traced(Normal(stack), bytes)
  {
  }

  lemma OpenArrayTraced(stack: seq<Frame>, parts: seq<Part>, w: nat, n: nat)
    requires StackMeans(stack, parts) && w in {0, 2, 4} && Length(w, n, 0x10)
    ensures Traced(OpenArray(stack, n), StackWire(stack, parts) + ArrayLead(w, n))
  {
    assert n < SIZE_LIMIT;
    hide StackMeans, StackWire, Traced, Complete, Lead, Length;
    if AtKey(stack) {
      GivenUpTraced(StackWire(stack, parts) + ArrayLead(w, n));
    } else if n == 0 {
      var a := Array(w, []);
      assert ItemMeans(a, Arr([])) && Wire(a) == ArrayLead(w, 0) + [] == ArrayLead(w, 0);
      CompleteTraced(stack, parts, a, Arr([]));
    } else {
      var p := InList(w, n, []);
      assert PartMeans(InArray([], n - 1), p);
      assert PartWire(InArray([], n - 1), p) == ArrayLead(w, n) + [] == ArrayLead(w, n);
      TopTraced(stack, parts, InArray([], n - 1), p, StackWire(stack, parts) + ArrayLead(w, n));
    }
  }

  lemma OpenMapTraced(stack: seq<Frame>, parts: seq<Part>, w: nat, n: nat)
    requires StackMeans(stack, parts) && w in {0, 2, 4} && Length(w, n, 0x10)
    ensures Traced(OpenMap(stack, n), StackWire(stack, parts) + MapLead(w, n))
  {
    assert n < SIZE_LIMIT;
    hide StackMeans, StackWire, Traced, Complete, Lead, Length, LastWins;
    NoMembers([]);
    if AtKey(stack) {
      GivenUpTraced(StackWire(stack, parts) + MapLead(w, n));
    } else if n == 0 {
      var a := Map(w, []);
      MapMeant(a, [], []);
      assert Wire(a) == MapLead(w, 0) + [] == MapLead(w, 0);
      CompleteTraced(stack, parts, a, Obj([]));
    } else {
      var p := AtName(w, n, [], []);
      assert PartMeans(InKey([], n - 1), p);
      assert PartWire(InKey([], n - 1), p) == MapLead(w, n) + [] == MapLead(w, n);
      TopTraced(stack, parts, InKey([], n - 1), p, StackWire(stack, parts) + MapLead(w, n));
    }
  }

  lemma OpenTextTraced(stack: seq<Frame>, parts: seq<Part>, w: nat, binary: bool, n: nat)
    requires StackMeans(stack, parts) && w in {0, 1, 2, 4} && Length(w, n, if binary then 0 else 0x20)
    ensures Traced(OpenText(stack, n), StackWire(stack, parts) + RawLead(w, binary, n))
  {
    hide StackMeans, StackWire, Deliver, Lead;
    if n == 0 {
      var a := Raw(w, binary, []);
      assert ItemMeans(a, Str([])) && Wire(a) == RawLead(w, binary, 0) + [] == RawLead(w, binary, 0);
      DeliverTraced(stack, parts, a, Str([]));
    } else {
      var bytes := StackWire(stack, parts) + RawLead(w, binary, n);
      assert bytes + [] == bytes;
      assert TextTraced(stack, [], n, bytes, parts, w, binary);
    }
  }

  lemma OpensTooBig(stack: seq<Frame>, n: nat)
    requires n >= SIZE_LIMIT
    ensures OpenText(stack, n) == OpenArray(stack, n) == OpenMap(stack, n) == TooBig
  {
  }

  /** A type byte that begins a header, or nothing. */
  lemma HeaderStarts(stack: seq<Frame>, parts: seq<Part>, b: Byte)
    requires StackMeans(stack, parts)
    ensures Traced(Header(stack, [b], HeaderLength(b)), StackWire(stack, parts) + [b])
    ensures Traced(Error, StackWire(stack, parts))
  {
  }

  lemma NumberTraced(stack: seq<Frame>, parts: seq<Part>, h: Bytes)
    requires StackMeans(stack, parts) && |h| >= 2 && HeaderLength(h[0]) == |h| && 0xCC <= h[0] <= 0xD3
    ensures Traced(ReadHeader(stack, h), StackWire(stack, parts) + h)
  {
    Powers();
    var b, w, body := h[0], |h| - 1, h[1..];
    var x := Num(body);
    NumBound(body);
    NumWritten(body);
    hide StackMeans, StackWire, Traced, Deliver, Num, Net, Pow256;
    if b <= 0xCF {
      var i := UInt(w, x);
      assert Wire(i) == [b] + body == h;
      DeliverTraced(stack, parts, i, Int(x, false));
    } else {
      var i := SInt(w, Signed(x, Pow256(w)));
      assert Wire(i) == [b] + body == h;
      DeliverTraced(stack, parts, i, Int(i.x, false));
    }
  }

  /** A complete header. */
  lemma HeaderTraced(stack: seq<Frame>, parts: seq<Part>, h: Bytes)
    requires StackMeans(stack, parts) && |h| >= 2 && HeaderLength(h[0]) == |h|
    ensures Traced(ReadHeader(stack, h), StackWire(stack, parts) + h)
  {
    var b, w, body := h[0], |h| - 1, h[1..];
    var x := Num(body);
    NumBound(body);
    NumWritten(body);
    hide StackMeans, StackWire, Traced, Deliver, OpenText, OpenArray, OpenMap, Num, Net, Pow256;
    assert h == [b] + body;
    if b == 0xCA {
      assert Wire(Float32(body)) == h;
      DeliverTraced(stack, parts, Float32(body), Single(body));
    } else if b == 0xCB {
      assert Wire(Float64(body)) == h;
      DeliverTraced(stack, parts, Float64(body), Double(body));
    } else if 0xCC <= b <= 0xD3 {
      NumberTraced(stack, parts, h);
    } else if x >= SIZE_LIMIT {
      OpensTooBig(stack, x);
      GivenUpTraced(StackWire(stack, parts) + h);
    } else if b == 0xDC || b == 0xDD {
      OpenArrayTraced(stack, parts, w, x);
    } else if b == 0xDE || b == 0xDF {
      OpenMapTraced(stack, parts, w, x);
    } else {
      OpenTextTraced(stack, parts, w, b < 0xD0, x);
    }
  }

  /** The first byte of a value. */
  lemma BeginTraced(stack: seq<Frame>, parts: seq<Part>, b: Byte)
    requires StackMeans(stack, parts)
    ensures var (s, used) := Begin(stack, b);
      Traced(s, if used then StackWire(stack, parts) + [b] else StackWire(stack, parts))
  {
    hide StackMeans, StackWire, Traced, Deliver, OpenText, OpenArray, OpenMap;
    if IsFixInt(b) {
      var i := FixInt(Signed(b, 0x100));
      assert Wire(i) == [b];
      DeliverTraced(stack, parts, i, Int(i.x, false));
    } else if b == 0xC0 {
      DeliverTraced(stack, parts, Nil, Null);
    } else if b == 0xC2 || b == 0xC3 {
      DeliverTraced(stack, parts, Boolean(b == 0xC3), Bool(b == 0xC3));
    } else if b < 0x90 {
      OpenMapTraced(stack, parts, 0, b - 0x80);
    } else if b < 0xA0 {
      OpenArrayTraced(stack, parts, 0, b - 0x90);
    } else if b < 0xC0 {
      OpenTextTraced(stack, parts, 0, false, b - 0xA0);
    } else {
      HeaderStarts(stack, parts, b);
    }
  }

  lemma TextDone(stack: seq<Frame>, parts: seq<Part>, w: nat, binary: bool, s: Bytes)
    requires StackMeans(stack, parts) && w in {0, 1, 2, 4} && Length(w, |s|, if binary then 0 else 0x20)
    ensures Traced(Deliver(stack, Str(s)), StackWire(stack, parts) + RawLead(w, binary, |s|) + s)
  {
    hide StackMeans, StackWire, Deliver, Traced, RawLead, Length;
    var i := Raw(w, binary, s);
    assert ItemMeans(i, Str(s)) && Wire(i) == RawLead(w, binary, |s|) + s;
    MsgPack.Regroup(StackWire(stack, parts), RawLead(w, binary, |s|), s);
    DeliverTraced(stack, parts, i, Str(s));
  }

  lemma TextByteTraced(stack: seq<Frame>, t: Bytes, need: nat, b: Byte, bytes: Bytes)
    requires |t| < need && Traced(Text(stack, t, need), bytes)
    ensures Traced(if |t| + 1 == need then Deliver(stack, Str(t + [b])) else Text(stack, t + [b], need), bytes + [b])
  {
    var parts, w, binary :| TextTraced(stack, t, need, bytes, parts, w, binary);
    hide StackMeans, StackWire, Deliver, RawLead, Length;
    MsgPack.Regroup(StackWire(stack, parts) + RawLead(w, binary, need), t, [b]);
    if |t| + 1 == need {
      hide Traced;
      TextDone(stack, parts, w, binary, t + [b]);
    } else {
      assert TextTraced(stack, t + [b], need, bytes + [b], parts, w, binary);
    }
  }

  lemma FeedTraced(s: State, b: Byte, bytes: Bytes)
    requires !Stopped(s) && Reading(s) && Traced(s, bytes)
    ensures Traced(Feed(s, b).0, if Feed(s, b).1 then bytes + [b] else bytes)
  {
    match s
    case Normal(stack) =>
      var parts :| StackMeans(stack, parts) && StackWire(stack, parts) == bytes;
      BeginTraced(stack, parts, b);
    case Header(stack, h, need) =>
      var parts :| StackMeans(stack, parts) && StackWire(stack, parts) + h == bytes;
      assert StackWire(stack, parts) + (h + [b]) == bytes + [b];
      if |h| + 1 == need { HeaderTraced(stack, parts, h + [b]); }
    case Text(stack, t, need) =>
      TextByteTraced(stack, t, need, b, bytes);
  }

  lemma {:induction false} RunTraced(s: State, before: Bytes, bytes: Bytes)
    requires Reading(s) && Traced(s, before)
    ensures Traced(Run(s, bytes).0, before + bytes[..Run(s, bytes).1])
    decreases |bytes|
  {
    hide Feed, Traced;
    if Stopped(s) || bytes == [] {
      assert before + bytes[..0] == before;
    } else {
      FeedTraced(s, bytes[0], before);
      var (s', used) := Feed(s, bytes[0]);
      if used {
        RunTraced(s', before + [bytes[0]], bytes[1..]);
        var n := Run(s', bytes[1..]).1;
        assert before + [bytes[0]] + bytes[1..][..n] == before + bytes[..n + 1];
      } else {
        assert before + bytes[..0] == before;
      }
    }
  }

  /** The parser completes a value on some bytes if and only if these are an encoding of the value, in
      any of its forms: no encoding is refused or misread, and nothing else is taken for one. */
  lemma ParsesExactly(bytes: Bytes, n: nat, j: Json)
    ensures Run(Normal([]), bytes) == (Final(j), n) <==> n <= |bytes| && Encodes(bytes[..n], j)
  {
    hide Run, Encodes;
    if Run(Normal([]), bytes) == (Final(j), n) {
      NormalTraced([], [], []);
      RunTraced(Normal([]), [], bytes);
      assert [] + bytes[..n] == bytes[..n];
    }
    if n <= |bytes| && Encodes(bytes[..n], j) {
      EncodingRead(bytes[..n], bytes[n..], j);
      assert bytes == bytes[..n] + bytes[n..];
    }
  }

  /** No encoding is another one followed by more, and none is of two values. */
  lemma EncodingsApart(a: Bytes, b: Bytes, j: Json, j': Json)
    requires Encodes(a, j) && Encodes(b, j') && a <= b
    ensures a == b && j == j'
  {
    hide Encodes;
    ParsesExactly(b, |a|, j);
    ParsesExactly(b, |b|, j');
    assert b[..|b|] == b && b[..|a|] == a;
  }

  /** Once the parser has given up, nothing that goes on with these bytes encodes a value. */
  lemma GivenUpForGood(bytes: Bytes, rest: Bytes, n: nat, j: Json)
    requires Stopped(Run(Normal([]), bytes).0) && !Run(Normal([]), bytes).0.Final? && n <= |bytes + rest|
    ensures !Encodes((bytes + rest)[..n], j)
  {
    hide Encodes;
    ParsesExactly(bytes + rest, n, j);
    RunSplit(Normal([]), bytes, rest);
    assert Run(Normal([]), bytes + rest).0 == Run(Normal([]), bytes).0;
  }

  /** A new parser fed in any chunks is in success if and only if a beginning of the input encodes a
      value: then it holds that value and has used up those bytes. */
  method Parse(chunks: seq<Bytes>) returns (p: StreamingParser, total: nat)
    ensures fresh(p) && p.Valid() && total <= |Joined(chunks)|
    ensures p.state == ST_FINAL ==> Encodes(Joined(chunks)[..total], p.json)
    ensures forall n: nat, j :: n <= |Joined(chunks)| && Encodes(Joined(chunks)[..n], j) ==>
        p.state == ST_FINAL && p.json == j && total == n
  {
    hide Encodes;
    p := new StreamingParser();
    total := Drive(p, chunks);
    ghost var all := Joined(chunks);
    if p.state == ST_FINAL { ParsesExactly(all, total, p.json); }
    forall n: nat, j | n <= |all| && Encodes(all[..n], j) ensures p.state == ST_FINAL && p.json == j && total == n {
      ParsesExactly(all, n, j);
    }
  }
}
