/** MessagePack (msgpack.hh, msgpack.cc; MessagePack specification, section "Formats"): the unparser,
    and the streaming parser as an automaton that reads one byte at a time. Doubles are eight opaque
    bytes and floats four. */
module MsgPack {
  import opened Key

  /** A Json value. Parsing does not keep apart the two integer types, so parsed integers are not
      `unsigned`. Objects list their members in insertion order. */
  datatype Json =
    | Null
    | Bool(b: bool)
    | Int(i: int, unsigned: bool)
    | Single(bits: Bytes)
    | Double(bits: Bytes)
    | Str(s: Bytes)
    | Arr(items: seq<Json>)
    | Obj(members: seq<(Bytes, Json)>)

  /** Sizes are held in an `int`: lengths from here on are outside the model. */
  const SIZE_LIMIT: int := 0x8000_0000

  // ----- numbers on the wire -----

  /** Two's complement. */
  function Signed(x: int, modulus: int): int {
    if x >= modulus / 2 then x - modulus else x
  }

  function Wrapped(x: int, modulus: int): int {
    if x < 0 then x + modulus else x
  }

  lemma Powers()
    ensures Pow256(1) == 0x100 && Pow256(2) == 0x1_0000 && Pow256(4) == 0x1_0000_0000
    ensures Pow256(8) == 0x1_0000_0000_0000_0000
  {
    assert Pow256(3) == 0x100_0000;
    SliceFits();
  }

  // ----- the unparser -----

  /** `sized_writer<8>::write_unsigned`. */
  function WriteUnsigned(x: nat): (r: Bytes)
    requires x < 0x1_0000_0000_0000_0000
    ensures r != []
  {
    if x < 0x80 then [x]
    else if x < 0x100 then [0xCC, x]
    else if x < 0x1_0000 then [0xCD] + Net(x, 2)
    else if x < 0x1_0000_0000 then [0xCE] + Net(x, 4)
    else [0xCF] + Net(x, 8)
  }

  /** `sized_writer<8>::write_signed`. */
  function WriteSigned(x: int): (r: Bytes)
    requires -0x8000_0000_0000_0000 <= x < 0x8000_0000_0000_0000
    ensures r != []
  {
    if -0x20 <= x < 0x80 then [Wrapped(x, 0x100)]
    else if -0x80 <= x < 0x80 then [0xD0, Wrapped(x, 0x100)]
    else if -0x8000 <= x < 0x8000 then [0xD1] + Net(Wrapped(x, 0x1_0000), 2)
    else if -0x8000_0000 <= x < 0x8000_0000 then [0xD2] + Net(Wrapped(x, 0x1_0000_0000), 4)
    else [0xD3] + Net(Wrapped(x, 0x1_0000_0000_0000_0000), 8)
  }

  /** `write_string`, its header. */
  function StringHeader(n: nat): (r: Bytes)
    requires n < SIZE_LIMIT
    ensures r != []
  {
    if n < 0x20 then [0xA0 + n]
    else if n < 0x100 then [0xD9, n]
    else if n < 0x1_0000 then [0xDA] + Net(n, 2)
    else [0xDB] + Net(n, 4)
  }

  /** `write_array_header` and `write_map_header`. */
  function ListHeader(n: nat, fix: Byte, wide: Byte): (r: Bytes)
    requires n < SIZE_LIMIT && fix <= 0xF0 && wide < 0xFF
    ensures r != []
  {
    if n < 0x10 then [fix + n] else if n < 0x1_0000 then [wide] + Net(n, 2) else [wide + 1] + Net(n, 4)
  }

  /** The values that the unparser is for. */
  ghost predicate Fits(j: Json) {
    match j
    case Null => true
    case Bool(_) => true
    case Int(i, u) => if u then 0 <= i < 0x1_0000_0000_0000_0000
        else -0x8000_0000_0000_0000 <= i < 0x8000_0000_0000_0000
    case Single(_) => false
    case Double(b) => |b| == 8
    case Str(s) => |s| < SIZE_LIMIT
    case Arr(a) => |a| < SIZE_LIMIT && forall k :: 0 <= k < |a| ==> Fits(a[k])
    case Obj(m) =>
      && |m| < SIZE_LIMIT && (forall k :: 0 <= k < |m| ==> |m[k].0| < SIZE_LIMIT && Fits(m[k].1))
      && (forall k, l :: 0 <= k < l < |m| ==> m[k].0 != m[l].0)
  }

  /** `unparser::operator<<(const Json&)`. */
  ghost function Unparse(j: Json): (r: Bytes)
    requires Fits(j)
    ensures r != []
    decreases j, 0
  {
    match j
    case Null => [0xC0]
    case Bool(b) => [if b then 0xC3 else 0xC2]
    case Int(i, u) => if u then WriteUnsigned(i) else WriteSigned(i)
    case Double(b) => [0xCB] + b
    case Str(s) => StringHeader(|s|) + s
    case Arr(a) => ListHeader(|a|, 0x90, 0xDC) + UnparseItems(a)
    case Obj(m) => ListHeader(|m|, 0x80, 0xDE) + UnparseMembers(m)
  }

  ghost function UnparseItems(a: seq<Json>): Bytes
    requires forall k :: 0 <= k < |a| ==> Fits(a[k])
    decreases a, 1
  {
    if a == [] then [] else Unparse(a[0]) + UnparseItems(a[1..])
  }

  ghost function UnparseMembers(m: seq<(Bytes, Json)>): Bytes
    requires forall k :: 0 <= k < |m| ==> |m[k].0| < SIZE_LIMIT && Fits(m[k].1)
    decreases m, 1
  {
    if m == [] then [] else UnparseMember(m[0]) + UnparseMembers(m[1..])
  }

  ghost function UnparseMember(e: (Bytes, Json)): Bytes
    requires |e.0| < SIZE_LIMIT && Fits(e.1)
    decreases e, 0
  {
    StringHeader(|e.0|) + e.0 + Unparse(e.1)
  }

  // ----- the automaton -----

  /** A container under construction: what is complete, and how many elements come after the current
      one. */
  datatype Frame =
    | InArray(items: seq<Json>, left: nat)
    | InKey(members: seq<(Bytes, Json)>, left: nat)
    | InValue(members: seq<(Bytes, Json)>, key: Bytes, left: nat)

  /** `Header` has read the first bytes of a header of `need` bytes; `Text` has read some of a string
      of `need`. `TooBig` is a size outside the model. */
  datatype State =
    | Normal(stack: seq<Frame>)
    | Header(stack: seq<Frame>, bytes: Bytes, need: nat)
    | Text(stack: seq<Frame>, bytes: Bytes, need: nat)
    | Final(json: Json)
    | Error
    | TooBig

  predicate Stopped(s: State) {
    s.Final? || s.Error? || s.TooBig?
  }

  /** `Json::get_insert` and the assignment. */
  function Insert(m: seq<(Bytes, Json)>, k: Bytes, v: Json): (r: seq<(Bytes, Json)>)
    decreases |m|
  {
    if m == [] then [(k, v)] else if m[0].0 == k then [(k, v)] + m[1..] else [m[0]] + Insert(m[1..], k, v)
  }

  /** A value is complete: the innermost container takes it, and is complete itself if it was the last. */
  function Complete(stack: seq<Frame>, v: Json): State
    decreases |stack|
  {
    if stack == [] then Final(v)
    else
      var rest, top := stack[..|stack| - 1], stack[|stack| - 1];
      match top
      case InArray(a, left) =>
        if left == 0 then Complete(rest, Arr(a + [v])) else Normal(rest + [InArray(a + [v], left - 1)])
      case InValue(m, k, left) =>
        if left == 0 then Complete(rest, Obj(Insert(m, k, v))) else Normal(rest + [InKey(Insert(m, k, v), left - 1)])
      case InKey(_, _) => Error
  }

  /** The decimal text of an integer key. */
  function Digits(n: nat): Bytes {
    (if n < 10 then [] else Digits(n / 10)) + [48 + n % 10]
  }

  function KeyText(v: Json): Bytes
    requires v.Str? || v.Int?
  {
    if v.Str? then v.s else if v.i < 0 then [45] + Digits(-v.i) else Digits(v.i)
  }

  predicate AtKey(stack: seq<Frame>) {
    stack != [] && stack[|stack| - 1].InKey?
  }

  /** A value that is no container is there: it is a key or a value. */
  function Deliver(stack: seq<Frame>, v: Json): State {
    if AtKey(stack) then
      var top := stack[|stack| - 1];
      if v.Str? || v.Int? then Normal(stack[..|stack| - 1] + [InValue(top.members, KeyText(v), top.left)]) else Error
    else Complete(stack, v)
  }

  function OpenArray(stack: seq<Frame>, n: int): State {
    if n < 0 || n >= SIZE_LIMIT then TooBig
    else if AtKey(stack) then Error
    else if n == 0 then Complete(stack, Arr([]))
    else Normal(stack + [InArray([], n - 1)])
  }

  function OpenMap(stack: seq<Frame>, n: int): State {
    if n < 0 || n >= SIZE_LIMIT then TooBig
    else if AtKey(stack) then Error
    else if n == 0 then Complete(stack, Obj([]))
    else Normal(stack + [InKey([], n - 1)])
  }

  function OpenText(stack: seq<Frame>, n: int): State {
    if n < 0 || n >= SIZE_LIMIT then TooBig else if n == 0 then Deliver(stack, Str([])) else Text(stack, [], n)
  }

  /** The table `nbytes`: the length of the header that a type byte begins, or 0. */
  function HeaderLength(b: Byte): nat {
    if b == 0xC4 || b == 0xCC || b == 0xD0 || b == 0xD9 then 2
    else if b == 0xC5 || b == 0xCD || b == 0xD1 || b == 0xDA || b == 0xDC || b == 0xDE then 3
    else if b == 0xC6 || b == 0xCA || b == 0xCE || b == 0xD2 || b == 0xDB || b == 0xDD || b == 0xDF then 5
    else if b == 0xCB || b == 0xCF || b == 0xD3 then 9
    else 0
  }

  /** A complete header. */
  function ReadHeader(stack: seq<Frame>, h: Bytes): State
    requires |h| >= 2 && HeaderLength(h[0]) == |h|
  {
    var b, body := h[0], h[1..];
    var x := Num(body);
    if b == 0xCA then Deliver(stack, Single(body))
    else if b == 0xCB then Deliver(stack, Double(body))
    else if 0xCC <= b <= 0xCF then Deliver(stack, Int(x, false))
    else if 0xD0 <= b <= 0xD3 then Deliver(stack, Int(Signed(x, Pow256(|body|)), false))
    else if b == 0xDC || b == 0xDD then OpenArray(stack, x)
    else if b == 0xDE || b == 0xDF then OpenMap(stack, x)
    else OpenText(stack, x)
  }

  predicate IsFixInt(b: Byte) {
    b < 0x80 || 0xE0 <= b
  }

  /** The first byte of a value. A byte that begins nothing is an error, and is not used up. */
  function Begin(stack: seq<Frame>, b: Byte): (r: (State, bool)) {
    if IsFixInt(b) then (Deliver(stack, Int(Signed(b, 0x100), false)), true)
    else if b == 0xC0 then (Deliver(stack, Null), true)
    else if b == 0xC2 || b == 0xC3 then (Deliver(stack, Bool(b == 0xC3)), true)
    else if b < 0x90 then (OpenMap(stack, b - 0x80), true)
    else if b < 0xA0 then (OpenArray(stack, b - 0x90), true)
    else if b < 0xC0 then (OpenText(stack, b - 0xA0), true)
    else if HeaderLength(b) == 0 then (Error, false)
    else (Header(stack, [b], HeaderLength(b)), true)
  }

  /** A state that reading can lead to. */
  predicate Reading(s: State) {
    && (s.Header? ==> 0 < |s.bytes| < s.need && s.need == HeaderLength(s.bytes[0]))
    && (s.Text? ==> |s.bytes| < s.need)
  }

  /** One byte more: the next state, and whether the byte was used up. */
  function Feed(s: State, b: Byte): (r: (State, bool))
    requires !Stopped(s) && Reading(s)
    ensures Reading(r.0) && (!r.1 ==> r.0 == Error)
  {
    match s
    case Normal(stack) =>
      DeliverReads(stack);
      Begin(stack, b)
    case Header(stack, h, need) =>
      DeliverReads(stack);
      (if |h| + 1 == need then ReadHeader(stack, h + [b]) else Header(stack, h + [b], need), true)
    case Text(stack, t, need) =>
      DeliverReads(stack);
      (if |t| + 1 == need then Deliver(stack, Str(t + [b])) else Text(stack, t + [b], need), true)
  }

  lemma {:induction false} CompleteReads(stack: seq<Frame>, v: Json)
    ensures Reading(Complete(stack, v))
    decreases |stack|
  {
    if stack != [] {
      var rest, top := stack[..|stack| - 1], stack[|stack| - 1];
      match top
      case InArray(a, left) => CompleteReads(rest, Arr(a + [v]));
      case InValue(m, k, left) => CompleteReads(rest, Obj(Insert(m, k, v)));
      case InKey(_, _) =>
    }
  }

  lemma DeliverReads(stack: seq<Frame>)
    ensures forall v :: Reading(Deliver(stack, v)) && Reading(Complete(stack, v))
  {
    forall v ensures Reading(Deliver(stack, v)) && Reading(Complete(stack, v)) {
      CompleteReads(stack, v);
    }
  }

  /** The state after the bytes, or after as many as it takes to stop, and how many were used up. */
  function Run(s: State, bytes: Bytes): (r: (State, nat))
    requires Reading(s)
    ensures Reading(r.0) && r.1 <= |bytes| && (!Stopped(r.0) ==> r.1 == |bytes|)
    decreases |bytes|
  {
    if Stopped(s) || bytes == [] then (s, 0)
    else
      var (s', used) := Feed(s, bytes[0]);
      if !used then (s', 0) else var (f, n) := Run(s', bytes[1..]); (f, n + 1)
  }

  /** Chunks: the outcome and the number of bytes used up do not depend on where the input is cut. */
  lemma {:induction false} RunSplit(s: State, a: Bytes, b: Bytes)
    requires Reading(s)
    ensures var (m, n) := Run(s, a);
      Run(s, a + b) == if Stopped(m) then (m, n) else (Run(m, b).0, |a| + Run(m, b).1)
    decreases |a|
  {
    hide Feed, Reading;
    if a == [] {
      assert a + b == b;
    } else if !Stopped(s) {
      assert (a + b)[1..] == a[1..] + b;
      var (s', used) := Feed(s, a[0]);
      if used { RunSplit(s', a[1..], b); }
    }
  }

  // ----- the round trip -----

  /** The value with its integers of the type that parsing gives. */
  ghost function Plain(j: Json): Json
    decreases j, 0
  {
    match j
    case Int(i, _) => Int(i, false)
    case Arr(a) => Arr(PlainItems(a))
    case Obj(m) => Obj(PlainMembers(m))
    case _ => j
  }

  ghost function PlainItems(a: seq<Json>): (r: seq<Json>)
    ensures |r| == |a|
    decreases a, 1
  {
    if a == [] then [] else [Plain(a[0])] + PlainItems(a[1..])
  }

  ghost function PlainMembers(m: seq<(Bytes, Json)>): (r: seq<(Bytes, Json)>)
    ensures |r| == |m| && forall k :: 0 <= k < |m| ==> r[k].0 == m[k].0
    decreases m, 1
  {
    if m == [] then [] else [PlainMember(m[0])] + PlainMembers(m[1..])
  }

  ghost function PlainMember(e: (Bytes, Json)): (Bytes, Json)
    decreases e, 0
  {
    (e.0, Plain(e.1))
  }

  /** From `s` the bytes lead to `s'`, and are all used up. */
  ghost predicate Reads(s: State, bytes: Bytes, s': State) {
    Reading(s) && Run(s, bytes) == (s', |bytes|)
  }

  lemma ReadsThen(s: State, a: Bytes, m: State, b: Bytes, s': State)
    requires Reads(s, a, m) && Reads(m, b, s')
    ensures Reads(s, a + b, s')
  {
    RunSplit(s, a, b);
    if Stopped(m) { assert b == []; }
  }

  lemma OneReads(s: State, b: Byte)
    requires Reading(s) && !Stopped(s) && Feed(s, b).1
    ensures Reads(s, [b], Feed(s, b).0)
  {
    assert [b][1..] == [];
    assert Run(Feed(s, b).0, []) == (Feed(s, b).0, 0);
  }

  lemma {:induction false} RestOfHeaderReads(stack: seq<Frame>, pre: Bytes, post: Bytes)
    requires pre != [] && post != [] && HeaderLength(pre[0]) == |pre| + |post|
    ensures Reads(Header(stack, pre, |pre| + |post|), post, ReadHeader(stack, pre + post))
    decreases |post|
  {
    var s := Header(stack, pre, |pre| + |post|);
    OneReads(s, post[0]);
    assert post == [post[0]] + post[1..];
    if |post| == 1 {
      assert post == [post[0]];
    } else {
      assert (pre + [post[0]])[0] == pre[0] && (pre + [post[0]]) + post[1..] == pre + post;
      RestOfHeaderReads(stack, pre + [post[0]], post[1..]);
      ReadsThen(s, [post[0]], Header(stack, pre + [post[0]], |pre| + |post|), post[1..], ReadHeader(stack, pre + post));
    }
  }

  lemma HeaderReads(stack: seq<Frame>, h: Bytes)
    requires |h| >= 2 && HeaderLength(h[0]) == |h|
    ensures Reads(Normal(stack), h, ReadHeader(stack, h))
  {
    OneReads(Normal(stack), h[0]);
    RestOfHeaderReads(stack, [h[0]], h[1..]);
    assert [h[0]] + h[1..] == h;
    ReadsThen(Normal(stack), [h[0]], Header(stack, [h[0]], |h|), h[1..], ReadHeader(stack, h));
  }

  lemma {:induction false} TextReads(stack: seq<Frame>, pre: Bytes, post: Bytes)
    requires post != []
    ensures Reads(Text(stack, pre, |pre| + |post|), post, Deliver(stack, Str(pre + post)))
    decreases |post|
  {
    var s := Text(stack, pre, |pre| + |post|);
    OneReads(s, post[0]);
    assert post == [post[0]] + post[1..];
    if |post| == 1 {
      assert post == [post[0]];
    } else {
      assert (pre + [post[0]]) + post[1..] == pre + post;
      TextReads(stack, pre + [post[0]], post[1..]);
      ReadsThen(s, [post[0]], Text(stack, pre + [post[0]], |pre| + |post|), post[1..], Deliver(stack, Str(pre + post)));
    }
  }

  /** A header of a type byte and a number. */
  lemma NumberReads(stack: seq<Frame>, b: Byte, x: nat, w: nat)
    requires 0 < w && HeaderLength(b) == w + 1 && x < Pow256(w)
    ensures Reads(Normal(stack), [b] + Net(x, w), ReadHeader(stack, [b] + Net(x, w)))
    ensures ([b] + Net(x, w))[1..] == Net(x, w) && Num(Net(x, w)) == x
  {
    HeaderReads(stack, [b] + Net(x, w));
    NetRead(x, w);
  }

  lemma ByteNet(x: Byte)
    ensures Net(x, 1) == [x]
  {
    assert Net(x / 256, 0) == [];
  }

  lemma UnsignedReads(stack: seq<Frame>, x: nat)
    requires x < 0x1_0000_0000_0000_0000
    ensures Reads(Normal(stack), WriteUnsigned(x), Deliver(stack, Int(x, false)))
  {
    Powers();
    if x < 0x80 {
      OneReads(Normal(stack), x);
    } else if x < 0x100 {
      ByteNet(x);
      NumberReads(stack, 0xCC, x, 1);
    } else if x < 0x1_0000 {
      NumberReads(stack, 0xCD, x, 2);
    } else if x < 0x1_0000_0000 {
      NumberReads(stack, 0xCE, x, 4);
    } else {
      NumberReads(stack, 0xCF, x, 8);
    }
  }

  lemma SignedReads(stack: seq<Frame>, x: int)
    requires -0x8000_0000_0000_0000 <= x < 0x8000_0000_0000_0000
    ensures Reads(Normal(stack), WriteSigned(x), Deliver(stack, Int(x, false)))
  {
    Powers();
    if -0x20 <= x < 0x80 {
      OneReads(Normal(stack), Wrapped(x, 0x100));
    } else if -0x80 <= x < 0x80 {
      ByteNet(Wrapped(x, 0x100));
      NumberReads(stack, 0xD0, Wrapped(x, 0x100), 1);
    } else if -0x8000 <= x < 0x8000 {
      NumberReads(stack, 0xD1, Wrapped(x, 0x1_0000), 2);
    } else if -0x8000_0000 <= x < 0x8000_0000 {
      NumberReads(stack, 0xD2, Wrapped(x, 0x1_0000_0000), 4);
    } else {
      NumberReads(stack, 0xD3, Wrapped(x, 0x1_0000_0000_0000_0000), 8);
    }
  }

  lemma StringHeaderReads(stack: seq<Frame>, n: nat)
    requires n < SIZE_LIMIT
    ensures Reads(Normal(stack), StringHeader(n), OpenText(stack, n))
  {
    Powers();
    if n < 0x20 {
      OneReads(Normal(stack), 0xA0 + n);
    } else if n < 0x100 {
      ByteNet(n);
      NumberReads(stack, 0xD9, n, 1);
    } else if n < 0x1_0000 {
      NumberReads(stack, 0xDA, n, 2);
    } else {
      NumberReads(stack, 0xDB, n, 4);
    }
  }

  lemma StringReads(stack: seq<Frame>, s: Bytes)
    requires |s| < SIZE_LIMIT
    ensures Reads(Normal(stack), StringHeader(|s|) + s, Deliver(stack, Str(s)))
  {
    StringHeaderReads(stack, |s|);
    if s == [] {
      assert StringHeader(|s|) + s == StringHeader(|s|);
    } else {
      TextReads(stack, [], s);
      assert [] + s == s;
      ReadsThen(Normal(stack), StringHeader(|s|), Text(stack, [], |s|), s, Deliver(stack, Str(s)));
    }
  }

  lemma ArrayHeaderReads(stack: seq<Frame>, n: nat)
    requires n < SIZE_LIMIT
    ensures Reads(Normal(stack), ListHeader(n, 0x90, 0xDC), OpenArray(stack, n))
  {
    Powers();
    if n < 0x10 {
      OneReads(Normal(stack), 0x90 + n);
    } else if n < 0x1_0000 {
      NumberReads(stack, 0xDC, n, 2);
    } else {
      NumberReads(stack, 0xDD, n, 4);
    }
  }

  lemma MapHeaderReads(stack: seq<Frame>, n: nat)
    requires n < SIZE_LIMIT
    ensures Reads(Normal(stack), ListHeader(n, 0x80, 0xDE), OpenMap(stack, n))
  {
    Powers();
    if n < 0x10 {
      OneReads(Normal(stack), 0x80 + n);
    } else if n < 0x1_0000 {
      NumberReads(stack, 0xDE, n, 2);
    } else {
      NumberReads(stack, 0xDF, n, 4);
    }
  }

  /** The unparsed bytes of a value complete that value. */
  lemma {:induction false} ValueReads(stack: seq<Frame>, j: Json)
    requires Fits(j) && !AtKey(stack)
    ensures Reads(Normal(stack), Unparse(j), Complete(stack, Plain(j)))
    decreases j, 0
  {
    hide Run, Complete, Insert, Num;
    match j
    case Null => OneReads(Normal(stack), 0xC0);
    case Bool(b) => OneReads(Normal(stack), if b then 0xC3 else 0xC2);
    case Int(i, u) => if u { UnsignedReads(stack, i); } else { SignedReads(stack, i); }
    case Double(b) =>
      HeaderReads(stack, [0xCB] + b);
      assert ([0xCB] + b)[1..] == b;
    case Str(s) => StringReads(stack, s);
    case Arr(a) =>
      ArrayHeaderReads(stack, |a|);
      if a == [] {
        assert Unparse(j) == ListHeader(0, 0x90, 0xDC) + [] == ListHeader(0, 0x90, 0xDC);
      } else {
        ItemsRead(stack, [], a);
        assert [] + PlainItems(a) == PlainItems(a);
        ReadsThen(Normal(stack), ListHeader(|a|, 0x90, 0xDC), Normal(stack + [InArray([], |a| - 1)]), UnparseItems(a),
                  Complete(stack, Plain(j)));
      }
    case Obj(m) =>
      MapHeaderReads(stack, |m|);
      if m == [] {
        assert Unparse(j) == ListHeader(0, 0x80, 0xDE) + [] == ListHeader(0, 0x80, 0xDE);
      } else {
        MembersRead(stack, [], m);
        assert [] + PlainMembers(m) == PlainMembers(m);
        ReadsThen(Normal(stack), ListHeader(|m|, 0x80, 0xDE), Normal(stack + [InKey([], |m| - 1)]), UnparseMembers(m),
                  Complete(stack, Plain(j)));
      }
  }

  lemma {:induction false} ItemsRead(stack: seq<Frame>, done: seq<Json>, a: seq<Json>)
    requires a != [] && forall k :: 0 <= k < |a| ==> Fits(a[k])
    ensures Reads(Normal(stack + [InArray(done, |a| - 1)]), UnparseItems(a), Complete(stack, Arr(done + PlainItems(a))))
    decreases a, 1
  {
    var top := stack + [InArray(done, |a| - 1)];
    var p := Plain(a[0]);
    ValueReads(top, a[0]);
    assert top[..|top| - 1] == stack;
    if |a| == 1 {
      assert UnparseItems(a) == Unparse(a[0]) + UnparseItems(a[1..]) == Unparse(a[0])
        && PlainItems(a) == [p] + PlainItems(a[1..]) == [p];
    } else {
      ItemsRead(stack, done + [p], a[1..]);
      assert done + [p] + PlainItems(a[1..]) == done + PlainItems(a);
      ReadsThen(Normal(top), Unparse(a[0]), Complete(top, p), UnparseItems(a[1..]),
          Complete(stack, Arr(done + PlainItems(a))));
    }
  }

  lemma {:induction false} InsertNew(m: seq<(Bytes, Json)>, k: Bytes, v: Json)
    requires forall i :: 0 <= i < |m| ==> m[i].0 != k
    ensures Insert(m, k, v) == m + [(k, v)]
  {
    if m != [] { InsertNew(m[1..], k, v); }
  }

  /** The members still to come fit and have new keys. */
  ghost predicate ToCome(done: seq<(Bytes, Json)>, m: seq<(Bytes, Json)>) {
    && (forall k :: 0 <= k < |m| ==> |m[k].0| < SIZE_LIMIT && Fits(m[k].1))
    && (forall k, l :: 0 <= k < l < |m| ==> m[k].0 != m[l].0)
    && (forall k, l :: 0 <= k < |done| && 0 <= l < |m| ==> done[k].0 != m[l].0)
  }

  lemma NextToCome(done: seq<(Bytes, Json)>, m: seq<(Bytes, Json)>, p: (Bytes, Json))
    requires m != [] && ToCome(done, m) && p.0 == m[0].0
    ensures ToCome(done + [p], m[1..]) && Insert(done, p.0, p.1) == done + [p] && |m[0].0| < SIZE_LIMIT && Fits(m[0].1)
  {
    InsertNew(done, p.0, p.1);
  }

  lemma {:induction false} MembersRead(stack: seq<Frame>, done: seq<(Bytes, Json)>, m: seq<(Bytes, Json)>)
    requires m != [] && ToCome(done, m)
    ensures Reads(Normal(stack + [InKey(done, |m| - 1)]), UnparseMembers(m),
        Complete(stack, Obj(done + PlainMembers(m))))
    decreases m, 1
  {
    hide Run, Complete, UnparseMember, Insert;
    var p := PlainMember(m[0]);
    NextToCome(done, m, p);
    MemberReads(stack, done, m[0], |m| - 1);
    MembersStep(stack, done, m, p);
    UnparseStep(done, m);
    if |m| > 1 {
      MembersRead(stack, done + [p], m[1..]);
      ReadsThen(Normal(stack + [InKey(done, |m| - 1)]), UnparseMember(m[0]),
                Normal(stack + [InKey(done + [p], |m| - 2)]),
                UnparseMembers(m[1..]), Complete(stack, Obj(done + PlainMembers(m))));
    }
  }

  lemma CompleteMember(stack: seq<Frame>, done: seq<(Bytes, Json)>, key: Bytes, left: nat, v: Json)
    ensures Complete(stack + [InValue(done, key, left)], v)
      == if left == 0 then Complete(stack, Obj(Insert(done, key, v)))
        else Normal(stack + [InKey(Insert(done, key, v), left - 1)])
  {
    var value := stack + [InValue(done, key, left)];
    assert value[..|value| - 1] == stack && value[|value| - 1] == InValue(done, key, left);
  }

  lemma PlainStep(done: seq<(Bytes, Json)>, m: seq<(Bytes, Json)>)
    requires m != []
    ensures done + [PlainMember(m[0])] + PlainMembers(m[1..]) == done + PlainMembers(m)
    ensures |m| == 1 ==> done + PlainMembers(m) == done + [PlainMember(m[0])]
  {
    hide PlainMember, PlainMembers;
    PlainCons(m);
    Regroup(done, [PlainMember(m[0])], PlainMembers(m[1..]));
  }

  lemma PlainCons(m: seq<(Bytes, Json)>)
    requires m != []
    ensures PlainMembers(m) == [PlainMember(m[0])] + PlainMembers(m[1..])
    ensures |m| == 1 ==> PlainMembers(m) == [PlainMember(m[0])]
  {
    hide PlainMember;
  }

  lemma Regroup<T>(a: seq<T>, b: seq<T>, c: seq<T>)
    ensures a + b + c == a + (b + c)
  {
  }

  lemma UnparseStep(done: seq<(Bytes, Json)>, m: seq<(Bytes, Json)>)
    requires m != [] && ToCome(done, m)
    ensures UnparseMembers(m) == UnparseMember(m[0]) + UnparseMembers(m[1..])
    ensures |m| == 1 ==> UnparseMembers(m) == UnparseMember(m[0])
  {
    hide UnparseMember;
    if |m| == 1 { assert UnparseMembers(m[1..]) == []; }
  }

  /** What the first of the members leaves to be read. */
  lemma MembersStep(stack: seq<Frame>, done: seq<(Bytes, Json)>, m: seq<(Bytes, Json)>, p: (Bytes, Json))
    requires m != [] && p == PlainMember(m[0]) && Insert(done, p.0, p.1) == done + [p] && p.0 == m[0].0
    ensures Complete(stack + [InValue(done, m[0].0, |m| - 1)], p.1)
      == if |m| == 1 then Complete(stack, Obj(done + PlainMembers(m))) else Normal(stack + [InKey(done + [p], |m| - 2)])
    ensures done + [p] + PlainMembers(m[1..]) == done + PlainMembers(m)
  {
    hide Complete, Insert, PlainMember, PlainMembers;
    CompleteMember(stack, done, m[0].0, |m| - 1, p.1);
    PlainStep(done, m);
  }

  lemma {:induction false} MemberReads(stack: seq<Frame>, done: seq<(Bytes, Json)>, e: (Bytes, Json), left: nat)
    requires |e.0| < SIZE_LIMIT && Fits(e.1)
    ensures Reads(Normal(stack + [InKey(done, left)]), UnparseMember(e),
                  Complete(stack + [InValue(done, e.0, left)], PlainMember(e).1))
    decreases e, 0
  {
    var key, value := stack + [InKey(done, left)], stack + [InValue(done, e.0, left)];
    StringReads(key, e.0);
    assert key[..|key| - 1] == stack;
    ValueReads(value, e.1);
    ReadsThen(Normal(key), StringHeader(|e.0|) + e.0, Normal(value), Unparse(e.1), Complete(value, Plain(e.1)));
  }

  /** The unparsed bytes of any value, fed to the parser, end in success with an equal value, and are
      all used up; whatever follows is left alone. */
  lemma RoundTrip(j: Json, rest: Bytes)
    requires Fits(j)
    ensures Run(Normal([]), Unparse(j) + rest) == (Final(Plain(j)), |Unparse(j)|)
  {
    ValueReads([], j);
    RunSplit(Normal([]), Unparse(j), rest);
  }

  // ----- lengths that an `int` does not hold -----

  /** A header with a 32-bit length whose highest bit is set: read into an `int`, it is negative. */
  predicate Overlong(h: Bytes) {
    |h| == 5 && (h[0] == 0xC6 || h[0] == 0xDB || h[0] == 0xDD || h[0] == 0xDF) && h[1] >= 0x80
  }

  lemma {:induction false} CompleteFits(stack: seq<Frame>, v: Json)
    ensures !Complete(stack, v).TooBig?
    decreases |stack|
  {
    if stack != [] {
      var rest, top := stack[..|stack| - 1], stack[|stack| - 1];
      match top
      case InArray(a, left) => CompleteFits(rest, Arr(a + [v]));
      case InValue(m, k, left) => CompleteFits(rest, Obj(Insert(m, k, v)));
      case InKey(_, _) =>
    }
  }

  lemma DeliverFits(stack: seq<Frame>)
    ensures forall v :: !Deliver(stack, v).TooBig? && !Complete(stack, v).TooBig?
  {
    forall v ensures !Deliver(stack, v).TooBig? && !Complete(stack, v).TooBig? {
      CompleteFits(stack, v);
    }
  }

  /** Numbers of one or two bytes fit; one of four does not just when its highest bit is set. */
  lemma LengthFits(body: Bytes)
    requires |body| == 1 || |body| == 2 || |body| == 4
    ensures Num(body) >= SIZE_LIMIT <==> |body| == 4 && body[0] >= 0x80
  {
    Powers();
    NumBound(body);
    NumBound(body[1..]);
    assert Pow256(3) == 0x100_0000;
    assert Num(body) == body[0] * Pow256(|body| - 1) + Num(body[1..]);
  }

  lemma OpensFit(stack: seq<Frame>, n: nat)
    ensures OpenText(stack, n).TooBig? <==> n >= SIZE_LIMIT
    ensures OpenArray(stack, n).TooBig? <==> n >= SIZE_LIMIT
    ensures OpenMap(stack, n).TooBig? <==> n >= SIZE_LIMIT
  {
    DeliverFits(stack);
  }

  lemma HeaderFits(stack: seq<Frame>, h: Bytes)
    requires |h| >= 2 && HeaderLength(h[0]) == |h|
    ensures ReadHeader(stack, h).TooBig? <==> Overlong(h)
  {
    hide Deliver, OpenText, OpenArray, OpenMap, Num;
    DeliverFits(stack);
    OpensFit(stack, Num(h[1..]));
    if |h| != 9 { LengthFits(h[1..]); }
  }

  lemma BeginFits(stack: seq<Frame>, b: Byte)
    ensures !Begin(stack, b).0.TooBig?
  {
    hide Deliver, OpenText, OpenArray, OpenMap;
    DeliverFits(stack);
    if 0x80 <= b < 0xC0 { OpensFit(stack, b % 0x10); OpensFit(stack, b % 0x20); }
  }

  /** The only step that leads there. */
  lemma FeedFits(s: State, b: Byte)
    requires !Stopped(s) && Reading(s)
    ensures Feed(s, b).0.TooBig? <==> s.Header? && Overlong(s.bytes + [b])
  {
    hide Deliver, ReadHeader, Begin;
    match s
    case Normal(stack) => BeginFits(stack, b);
    case Header(stack, h, need) => if |h| + 1 == need { HeaderFits(stack, h + [b]); }
    case Text(stack, _, _) => DeliverFits(stack);
  }

  /** With byte `k` an overlong header is complete. */
  ghost predicate OverlongAt(s: State, bytes: Bytes, k: nat)
    requires Reading(s) && k < |bytes|
  {
    var m := Run(s, bytes[..k]).0;
    m.Header? && Overlong(m.bytes + [bytes[k]])
  }

  /** An input leaves the range of lengths if and only if an overlong header is read in it. */
  lemma {:induction false} TooBigExactly(s: State, bytes: Bytes)
    requires Reading(s) && !Stopped(s)
    ensures Run(s, bytes).0.TooBig? <==> exists k: nat :: k < |bytes| && OverlongAt(s, bytes, k)
    decreases |bytes|
  {
    hide Run, Feed;
    if bytes == [] {
      NothingRun(s);
    } else {
      var n := |bytes| - 1;
      var init, last := bytes[..n], bytes[n];
      var m := Run(s, init).0;
      TooBigExactly(s, init);
      assert bytes == init + [last];
      RunSplit(s, init, [last]);
      OneRun(m, last);
      forall k: nat | k < n ensures OverlongAt(s, init, k) <==> OverlongAt(s, bytes, k) {
        assert init[..k] == bytes[..k];
      }
      if !Stopped(m) {
        FeedFits(m, last);
        assert OverlongAt(s, bytes, n) <==> Feed(m, last).0.TooBig?;
      }
    }
  }

  lemma NothingRun(s: State)
    requires Reading(s)
    ensures Run(s, []) == (s, 0)
  {
  }

  lemma OneRun(s: State, b: Byte)
    requires Reading(s)
    ensures Run(s, [b]).0 == if Stopped(s) then s else Feed(s, b).0
  {
  }
}
