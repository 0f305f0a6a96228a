/** The unparser (msgpack.hh) among all encodings of a value: text is never written as binary, and every
    header is the narrowest there is. */
module MsgPackShort {
  import opened Key
  import opened MsgPack
  import opened MsgPackForms

  ghost predicate ShortText(i: Item, s: Bytes) {
    && i.Raw? && !i.binary && i.s == s && Legal(i)
    && forall w :: Legal(Raw(w, false, s)) ==> i.w <= w
  }

  /** Integers keep their sign class: an unsigned one is written so, however small. */
  ghost predicate ShortInt(i: Item, x: int, unsigned: bool) {
    && Legal(i)
    && if -0x20 <= x < 0x80 then i == FixInt(x)
       else if unsigned then i.UInt? && i.x == x && forall w :: Legal(UInt(w, x)) ==> i.w <= w
       else i.SInt? && i.x == x && forall w :: Legal(SInt(w, x)) ==> i.w <= w
  }

  /** The encoding of `j` that the unparser is to write. */
  ghost predicate Short(i: Item, j: Json)
    decreases j
  {
    match j
    case Null => i == Nil
    case Bool(b) => i == Boolean(b)
    case Int(x, unsigned) => ShortInt(i, x, unsigned)
    case Single(bits) => i == Float32(bits)
    case Double(bits) => i == Float64(bits)
    case Str(s) => ShortText(i, s)
    case Arr(a) =>
      && i.Array? && |i.items| == |a| && (forall w :: Legal(Array(w, i.items)) ==> i.w <= w)
      && forall k :: 0 <= k < |a| ==> Short(i.items[k], a[k])
    case Obj(m) =>
      && i.Map? && |i.pairs| == |m| && (forall w :: Legal(Map(w, i.pairs)) ==> i.w <= w)
      && forall k :: 0 <= k < |m| ==> ShortText(i.pairs[k].0, m[k].0) && Short(i.pairs[k].1, m[k].1)
  }

  // ----- headers -----

  lemma TextIsShort(s: Bytes) returns (i: Item)
    requires |s| < SIZE_LIMIT
    ensures ShortText(i, s) && Wire(i) == StringHeader(|s|) + s
  {
    Powers();
    var n := |s|;
    i := Raw(if n < 0x20 then 0 else if n < 0x100 then 1 else if n < 0x1_0000 then 2 else 4, false, s);
    if 0x20 <= n < 0x100 { ByteNet(n); }
  }

  lemma IntIsShort(x: int, unsigned: bool) returns (i: Item)
    requires Fits(Int(x, unsigned))
    ensures ShortInt(i, x, unsigned) && Wire(i) == if unsigned then WriteUnsigned(x) else WriteSigned(x)
  {
    Powers();
    hide Net;
    if -0x20 <= x < 0x80 {
      i := FixInt(x);
    } else if unsigned {
      i := UInt(if x < 0x100 then 1 else if x < 0x1_0000 then 2 else if x < 0x1_0000_0000 then 4 else 8, x);
      if x < 0x100 { ByteNet(x); }
    } else {
      i := SInt(if -0x80 <= x < 0x80 then 1 else if -0x8000 <= x < 0x8000 then 2
                else if -0x8000_0000 <= x < 0x8000_0000 then 4 else 8, x);
      if i.w == 1 { ByteNet(Wrapped(x, 0x100)); }
    }
  }

  function ListWidth(n: nat): nat {
    if n < 0x10 then 0 else if n < 0x1_0000 then 2 else 4
  }

  lemma ListIsShort(n: nat)
    requires n < SIZE_LIMIT
    ensures Length(ListWidth(n), n, 0x10) && forall w :: w in {0, 2, 4} && Length(w, n, 0x10) ==> ListWidth(n) <= w
    ensures ArrayLead(ListWidth(n), n) == ListHeader(n, 0x90, 0xDC)
    ensures MapLead(ListWidth(n), n) == ListHeader(n, 0x80, 0xDE)
  {
    Powers();
  }

  // ----- values -----

  /** The unparser writes that encoding. */
  lemma {:induction false} UnparsesShort(j: Json) returns (i: Item)
    requires Fits(j)
    ensures Legal(i) && Short(i, j) && Wire(i) == Unparse(j)
    decreases j, 0
  {
    match j
    case Null => i := Nil;
    case Bool(b) => i := Boolean(b);
    case Int(x, u) => i := IntIsShort(x, u);
    case Double(bits) => i := Float64(bits);
    case Str(s) => i := TextIsShort(s);
    case Arr(a) =>
      var items := ItemsShort(a);
      i := ArrIsShort(a, items);
    case Obj(m) =>
      var pairs := MembersShort(m);
      i := ObjIsShort(m, pairs);
  }

  ghost predicate ItemsAreShort(items: seq<Item>, a: seq<Json>) {
    |items| == |a| && forall k :: 0 <= k < |a| ==> Legal(items[k]) && Short(items[k], a[k])
  }

  ghost predicate MemberIsShort(e: (Item, Item), x: (Bytes, Json)) {
    ShortText(e.0, x.0) && Legal(e.1) && Short(e.1, x.1)
  }

  ghost predicate MembersAreShort(pairs: seq<(Item, Item)>, m: seq<(Bytes, Json)>) {
    |pairs| == |m| && forall k :: 0 <= k < |m| ==> MemberIsShort(pairs[k], m[k])
  }

  lemma ArrIsShort(a: seq<Json>, items: seq<Item>) returns (i: Item)
    requires Fits(Arr(a)) && ItemsAreShort(items, a) && Wires(items) == UnparseItems(a)
    ensures Legal(i) && Short(i, Arr(a)) && Wire(i) == Unparse(Arr(a))
  {
    ListIsShort(|a|);
    hide Wires, UnparseItems, Length, Lead, ListHeader, ListWidth;
    i := Array(ListWidth(|a|), items);
  }

  lemma ObjIsShort(m: seq<(Bytes, Json)>, pairs: seq<(Item, Item)>) returns (i: Item)
    requires Fits(Obj(m)) && MembersAreShort(pairs, m) && PairWires(pairs) == UnparseMembers(m)
    ensures Legal(i) && Short(i, Obj(m)) && Wire(i) == Unparse(Obj(m))
  {
    ListIsShort(|m|);
    hide PairWires, UnparseMembers, Length, Lead, ListHeader, ListWidth;
    i := Map(ListWidth(|m|), pairs);
  }

  lemma {:induction false} ItemsShort(a: seq<Json>) returns (items: seq<Item>)
    requires forall k :: 0 <= k < |a| ==> Fits(a[k])
    ensures ItemsAreShort(items, a) && Wires(items) == UnparseItems(a)
    decreases a, 1
  {
    if a == [] {
      items := [];
    } else {
      var i := UnparsesShort(a[0]);
      var rest := ItemsShort(a[1..]);
      items := [i] + rest;
    }
  }

  lemma {:induction false} MemberShort(x: (Bytes, Json)) returns (e: (Item, Item))
    requires |x.0| < SIZE_LIMIT && Fits(x.1)
    ensures MemberIsShort(e, x) && PairWire(e) == UnparseMember(x)
    decreases x, 0
  {
    var key := TextIsShort(x.0);
    var i := UnparsesShort(x.1);
    e := (key, i);
  }

  lemma {:induction false} MembersShort(m: seq<(Bytes, Json)>) returns (pairs: seq<(Item, Item)>)
    requires forall k :: 0 <= k < |m| ==> |m[k].0| < SIZE_LIMIT && Fits(m[k].1)
    ensures MembersAreShort(pairs, m) && PairWires(pairs) == UnparseMembers(m)
    decreases m, 1
  {
    if m == [] {
      pairs := [];
    } else {
      var e := MemberShort(m[0]);
      var rest := MembersShort(m[1..]);
      hide Short, ShortText, PairWire, UnparseMember;
      pairs := [e] + rest;
    }
  }
}
