/** `streaming_parser` (msgpack.cc): reads whole headers and strings where it can, buffers them where
    a chunk ends inside one, and refines the automaton that reads byte by byte. The container under
    construction is kept on the stack, where the source has pointers into the value. */
module MsgPackParser {
  import opened Key
  import opened MsgPack

  const ST_FINAL: int := -2
  const ST_ERROR: int := -1
  const ST_NORMAL: int := 0
  const ST_PARTIAL: int := 1
  const ST_STRING: int := 2
  /** A size outside the model. */
  const ST_TOO_BIG: int := -3

  function Left(f: Frame): nat {
    f.left
  }

  function Closed(f: Frame, v: Json): Json
    requires !f.InKey?
  {
    if f.InArray? then Arr(f.items + [v]) else Obj(Insert(f.members, f.key, v))
  }

  function Advanced(f: Frame, v: Json): Frame
    requires !f.InKey? && f.left > 0
  {
    if f.InArray? then InArray(f.items + [v], f.left - 1) else InKey(Insert(f.members, f.key, v), f.left - 1)
  }

  /** Only the innermost container can be waiting for a key. */
  ghost predicate StackOk(stack: seq<Frame>) {
    forall i :: 0 <= i < |stack| - 1 ==> !stack[i].InKey?
  }

  class StreamingParser {
    var state: int
    var stack: seq<Frame>
    var str: Bytes
    /** The length of the string being read, which the source keeps on the stack. */
    var size: nat
    var json: Json

    ghost predicate Valid()
      reads this
    {
      && ST_TOO_BIG <= state <= ST_STRING && StackOk(stack)
      && (state == ST_PARTIAL ==> str != [] && |str| < HeaderLength(str[0]))
      && (state == ST_STRING ==> |str| < size)
    }

    ghost function A(): (s: State)
      requires Valid()
      reads this
      ensures Reading(s)
    {
      if state == ST_FINAL then Final(json)
      else if state == ST_ERROR then Error
      else if state == ST_TOO_BIG then TooBig
      else if state == ST_NORMAL then Normal(stack)
      else if state == ST_PARTIAL then Header(stack, str, HeaderLength(str[0]))
      else Text(stack, str, size)
    }

    constructor ()
      ensures Valid() && A() == Normal([])
    {
      state, stack, str, size, json := ST_NORMAL, [], [], 0, Null;
    }

    /** The code after the label `next` for a value with no elements to come. */
    method Next(v: Json)
      requires Valid()
      modifies this
      ensures Valid() && A() == Deliver(old(stack), v) && state <= ST_NORMAL
    {
      var top := |stack| - 1;
      if top >= 0 && stack[top].InKey? {
        if !v.Str? && !v.Int? {
          state := ST_ERROR;
          return;
        }
        stack := stack[..top] + [InValue(stack[top].members, KeyText(v), stack[top].left)];
        state := ST_NORMAL;
        return;
      }
      Close(v);
    }

    /** Containers that are complete are taken off the stack. */
    method Close(v: Json)
      requires Valid() && !AtKey(stack)
      modifies this
      ensures Valid() && A() == Complete(old(stack), v) && state <= ST_NORMAL
    {
      var w := v;
      while stack != [] && stack[|stack| - 1].left == 0
        invariant StackOk(stack) && !AtKey(stack) && Complete(stack, w) == Complete(old(stack), v)
        decreases |stack|
      {
        w := Closed(stack[|stack| - 1], w);
        stack := stack[..|stack| - 1];
      }
      if stack == [] {
        json, state := w, ST_FINAL;
      } else {
        stack := stack[..|stack| - 1] + [Advanced(stack[|stack| - 1], w)];
        state := ST_NORMAL;
      }
    }

    /** The labels `array` and `map`. */
    method Open(n: int, isArray: bool)
      requires Valid()
      modifies this
      ensures Valid() && A() == (if isArray then OpenArray(old(stack), n) else OpenMap(old(stack), n))
      ensures state <= ST_NORMAL
    {
      if n < 0 || n >= SIZE_LIMIT {
        state := ST_TOO_BIG;
      } else if stack != [] && stack[|stack| - 1].InKey? {
        state := ST_ERROR;
      } else if n == 0 {
        Close(if isArray then Arr([]) else Obj([]));
      } else {
        stack := stack + [if isArray then InArray([], n - 1) else InKey([], n - 1)];
        state := ST_NORMAL;
      }
    }

    /** The label `raw`: a string of `n` bytes that begins at `i`. */
    method Raw(chunk: Bytes, i: nat, n: int) returns (i': nat)
      requires Valid() && i <= |chunk|
      modifies this
      ensures Valid() && i <= i' <= |chunk| && Reads(OpenText(old(stack), n), chunk[i..i'], A())
      ensures state > ST_NORMAL ==> state == ST_STRING && i' == |chunk|
    {
      DeliverReads(stack);
      if n < 0 || n >= SIZE_LIMIT {
        state := ST_TOO_BIG;
        i' := i;
      } else if |chunk| - i < n {
        str, size, state := chunk[i..], n, ST_STRING;
        ShortText(stack, [], chunk[i..], n);
        assert [] + chunk[i..] == chunk[i..] == chunk[i..|chunk|];
        i' := |chunk|;
      } else {
        i' := i + n;
        if n > 0 {
          TextReads(stack, [], chunk[i..i']);
          assert [] + chunk[i..i'] == chunk[i..i'];
        } else {
          assert chunk[i..i'] == [];
        }
        Next(Str(chunk[i..i']));
      }
    }

    /** A header that is all there. */
    method Typed(h: Bytes, chunk: Bytes, i: nat) returns (i': nat)
      requires Valid() && |h| >= 2 && HeaderLength(h[0]) == |h| && i <= |chunk|
      modifies this
      ensures Valid() && i <= i' <= |chunk| && Reading(ReadHeader(old(stack), h))
      ensures Reads(ReadHeader(old(stack), h), chunk[i..i'], A())
      ensures state > ST_NORMAL ==> state == ST_STRING && i' == |chunk|
    {
      DeliverReads(stack);
      i' := i;
      assert chunk[i..i'] == [];
      var b, body := h[0], h[1..];
      if b == 0xCA {
        Next(Single(body));
      } else if b == 0xCB {
        Next(Double(body));
      } else if 0xCC <= b <= 0xCF {
        Next(Int(Num(body), false));
      } else if 0xD0 <= b <= 0xD3 {
        Next(Int(Signed(Num(body), Pow256(|body|)), false));
      } else if b == 0xDC || b == 0xDD {
        Open(Num(body), true);
      } else if b == 0xDE || b == 0xDF {
        Open(Num(body), false);
      } else {
        i' := Raw(chunk, i, Num(body));
      }
    }

    /** The body of the loop: one value, or the beginning of one. */
    method Token(chunk: Bytes, i: nat) returns (i': nat)
      requires Valid() && state == ST_NORMAL && i < |chunk|
      modifies this
      ensures Valid() && i <= i' <= |chunk|
      ensures Reads(old(A()), chunk[i..i'], A()) || (i' == i && A() == Error && Run(old(A()), chunk[i..]) == (Error, 0))
      ensures state > ST_NORMAL ==> i' == |chunk|
      ensures i < i' || state == ST_ERROR
    {
      DeliverReads(stack);
      ghost var s := A();
      var b := chunk[i];
      i' := i + 1;
      assert chunk[i..i + 1] == [b];
      if IsFixInt(b) {
        OneReads(s, b);
        Next(Int(Signed(b, 0x100), false));
      } else if b == 0xC0 {
        OneReads(s, b);
        Next(Null);
      } else if b == 0xC2 || b == 0xC3 {
        OneReads(s, b);
        Next(Bool(b == 0xC3));
      } else if b < 0x90 {
        OneReads(s, b);
        Open(b - 0x80, false);
      } else if b < 0xA0 {
        OneReads(s, b);
        Open(b - 0x90, true);
      } else if b < 0xC0 {
        OneReads(s, b);
        i' := Raw(chunk, i + 1, b - 0xA0);
        assert chunk[i..i'] == [b] + chunk[i + 1..i'];
        ReadsThen(s, [b], OpenText(old(stack), b - 0xA0), chunk[i + 1..i'], A());
      } else {
        var n := HeaderLength(b);
        if n == 0 {
          state := ST_ERROR;
          i' := i;
        } else if |chunk| - i < n {
          str, state := chunk[i..], ST_PARTIAL;
          ShortHeader(stack, chunk[i..]);
          assert chunk[i..] == chunk[i..|chunk|];
          i' := |chunk|;
        } else {
          var h := chunk[i..i + n];
          HeaderReads(stack, h);
          i' := Typed(h, chunk, i + n);
          assert chunk[i..i'] == h + chunk[i + n..i'];
          ReadsThen(s, h, ReadHeader(old(stack), h), chunk[i + n..i'], A());
        }
      }
    }

    /** The loop of `consume`. */
    method Loop(chunk: Bytes, i: nat, ghost s: State) returns (n: nat)
      requires Valid() && state <= ST_NORMAL && i <= |chunk| && Reads(s, chunk[..i], A())
      modifies this
      ensures Valid() && i <= n <= |chunk| && Run(s, chunk) == (A(), n)
      decreases |chunk| - i
    {
      n := i;
      while n < |chunk| && state == ST_NORMAL
        invariant Valid() && i <= n <= |chunk| && (state > ST_NORMAL ==> n == |chunk|)
        invariant Reads(s, chunk[..n], A()) || (A() == Error && Run(s, chunk) == (A(), n))
        decreases |chunk| - n, state + 3
      {
        ghost var m := A();
        var k := Token(chunk, n);
        LoopStep(s, chunk, n, m, k, A());
        n := k;
      }
      assert chunk == chunk[..n] + chunk[n..];
      if Reads(s, chunk[..n], A()) { RunSplit(s, chunk[..n], chunk[n..]); }
    }

    /** `consume`: how much of the chunk is used up. It stops early when the value is complete or in
        error, and after a buffered string header. */
    method Consume(chunk: Bytes) returns (n: nat)
      requires Valid()
      modifies this
      ensures Valid() && n <= |chunk|
      ensures Run(old(A()), chunk) == (A(), n) || (state == ST_STRING && Reads(old(A()), chunk[..n], A()))
      ensures chunk != [] && !Stopped(old(A())) ==> n > 0 || state == ST_ERROR
    {
      ghost var s := A();
      if state < ST_NORMAL {
        return 0;
      }
      if state == ST_PARTIAL || state == ST_STRING {
        var need := if state == ST_PARTIAL then HeaderLength(str[0]) else size;
        n := if |chunk| < need - |str| then |chunk| else need - |str|;
        ghost var pre := str;
        str := str + chunk[..n];
        if |str| != need {
          assert chunk[..n] == chunk;
          if state == ST_PARTIAL { ShortHeaderMore(stack, pre, chunk); } else { ShortText(stack, pre, chunk, size); }
          return;
        }
        DeliverReads(stack);
        var wasText := state == ST_STRING;
        state := ST_NORMAL;
        if wasText {
          TextReads(stack, pre, chunk[..n]);
          Next(Str(str));
        } else {
          RestOfHeaderReads(stack, pre, chunk[..n]);
          var h := str;
          ghost var mid := ReadHeader(stack, h);
          var k := Typed(h, h, |h|);
          assert h[|h|..k] == [];
          BufferedHeader(s, chunk[..n], mid, A());
          if state != ST_NORMAL {
            assert chunk == chunk[..n] + chunk[n..];
            RunSplit(s, chunk[..n], chunk[n..]);
            return;
          }
        }
      } else {
        n := 0;
      }
      n := Loop(chunk, n, s);
    }
  }

  lemma BufferedHeader(s: State, a: Bytes, m: State, s': State)
    requires Reads(s, a, m) && Reads(m, [], s')
    ensures Reads(s, a, s')
  {
  }

  lemma LoopStep(s: State, chunk: Bytes, n: nat, m: State, k: nat, s': State)
    requires n <= k <= |chunk| && Reads(s, chunk[..n], m) && !Stopped(m)
    requires Reads(m, chunk[n..k], s') || (k == n && s' == Error && Run(m, chunk[n..]) == (Error, 0))
    ensures Reads(s, chunk[..k], s') || (s' == Error && Run(s, chunk) == (s', k))
  {
    if Reads(m, chunk[n..k], s') {
      assert chunk[..k] == chunk[..n] + chunk[n..k];
      ReadsThen(s, chunk[..n], m, chunk[n..k], s');
    } else {
      assert chunk == chunk[..n] + chunk[n..];
      RunSplit(s, chunk[..n], chunk[n..]);
    }
  }

  lemma {:induction false} ShortText(stack: seq<Frame>, pre: Bytes, post: Bytes, need: nat)
    requires |pre| + |post| < need
    ensures Reads(Text(stack, pre, need), post, Text(stack, pre + post, need))
    decreases |post|
  {
    if post == [] {
      assert pre + post == pre;
    } else {
      var s := Text(stack, pre, need);
      OneReads(s, post[0]);
      ShortText(stack, pre + [post[0]], post[1..], need);
      assert post == [post[0]] + post[1..] && pre + [post[0]] + post[1..] == pre + post;
      ReadsThen(s, [post[0]], Text(stack, pre + [post[0]], need), post[1..], Text(stack, pre + post, need));
    }
  }

  lemma {:induction false} ShortHeaderMore(stack: seq<Frame>, pre: Bytes, post: Bytes)
    requires pre != [] && |pre| + |post| < HeaderLength(pre[0])
    ensures Reads(Header(stack, pre, HeaderLength(pre[0])), post, Header(stack, pre + post, HeaderLength(pre[0])))
    decreases |post|
  {
    var need := HeaderLength(pre[0]);
    if post == [] {
      assert pre + post == pre;
    } else {
      var s := Header(stack, pre, need);
      OneReads(s, post[0]);
      ShortHeaderMore(stack, pre + [post[0]], post[1..]);
      assert post == [post[0]] + post[1..] && pre + [post[0]] + post[1..] == pre + post;
      ReadsThen(s, [post[0]], Header(stack, pre + [post[0]], need), post[1..], Header(stack, pre + post, need));
    }
  }

  lemma ShortHeader(stack: seq<Frame>, h: Bytes)
    requires h != [] && |h| < HeaderLength(h[0])
    ensures Reads(Normal(stack), h, Header(stack, h, HeaderLength(h[0])))
  {
    OneReads(Normal(stack), h[0]);
    ShortHeaderMore(stack, [h[0]], h[1..]);
    assert [h[0]] + h[1..] == h;
    ReadsThen(Normal(stack), [h[0]], Header(stack, [h[0]], HeaderLength(h[0])), h[1..],
        Header(stack, h, HeaderLength(h[0])));
  }

  function Joined(chunks: seq<Bytes>): Bytes {
    if chunks == [] then [] else chunks[0] + Joined(chunks[1..])
  }

  /** After `k` of the bytes, or stopped before the end of them. */
  ghost predicate Fed(s: State, all: Bytes, k: nat, m: State, total: nat) {
    && Reading(s) && k <= |all|
    && ((Reads(s, all[..k], m) && total == k) || (Stopped(m) && Run(s, all) == (m, total)))
  }

  lemma FedStart(s: State, fed: Bytes, chunk: Bytes, m: State, total: nat)
    requires Reading(s) && Run(s, fed) == (m, total)
    ensures Fed(s, fed + chunk, |fed|, m, total)
  {
    RunSplit(s, fed, chunk);
    assert (fed + chunk)[..|fed|] == fed;
  }

  lemma FedStep(s: State, all: Bytes, k: nat, m: State, n: nat, s': State)
    requires Fed(s, all, k, m, k) && Reading(m) && !Stopped(m) && k + n <= |all|
    requires Run(m, all[k..]) == (s', n) || Reads(m, all[k..][..n], s')
    ensures Fed(s, all, k + n, s', k + n)
  {
    var rest := all[k..];
    if Stopped(s') && Run(m, rest) == (s', n) {
      assert all == all[..k] + rest;
      RunSplit(s, all[..k], rest);
    } else {
      if n == |rest| { assert rest[..n] == rest; }
      assert all[..k] + rest[..n] == all[..k + n];
      ReadsThen(s, all[..k], m, rest[..n], s');
    }
  }

  lemma FedEnd(s: State, all: Bytes, k: nat, m: State, total: nat)
    requires Fed(s, all, k, m, total) && (k == |all| || Stopped(m))
    ensures Run(s, all) == (m, total)
  {
    if Reads(s, all[..k], m) && total == k {
      assert all == all[..k] + all[k..];
      RunSplit(s, all[..k], all[k..]);
    }
  }

  /** Feeding the input in chunks, cut anywhere: what a caller that feeds the unused rest of each chunk
      again gets is the run over the whole input, so it does not depend on the cuts. */
  method Drive(p: StreamingParser, chunks: seq<Bytes>) returns (total: nat)
    requires p.Valid()
    modifies p
    ensures p.Valid() && Run(old(p.A()), Joined(chunks)) == (p.A(), total)
  {
    ghost var s := p.A();
    total := 0;
    ghost var fed: Bytes := [];
    for c := 0 to |chunks|
      invariant p.Valid() && Run(s, fed) == (p.A(), total)
      invariant fed + Joined(chunks[c..]) == Joined(chunks)
    {
      FedStart(s, fed, chunks[c], p.A(), total);
      ghost var all := fed + chunks[c];
      assert all + Joined(chunks[c + 1..]) == Joined(chunks) by { Regroup(fed, chunks[c..]); }
      var n := DriveChunk(p, chunks[c], s, fed, total);
      total := total + n;
      fed := all;
    }
    assert chunks[|chunks|..] == [] && fed + [] == fed;
  }

  lemma Regroup(fed: Bytes, chunks: seq<Bytes>)
    requires chunks != []
    ensures fed + Joined(chunks) == fed + chunks[0] + Joined(chunks[1..])
  {
  }

  /** One chunk of `Drive`. */
  method DriveChunk(p: StreamingParser, chunk: Bytes, ghost s: State, ghost fed: Bytes, ghost before: nat)
    returns (used: nat)
    requires p.Valid() && Fed(s, fed + chunk, |fed|, p.A(), before)
    modifies p
    ensures p.Valid() && Run(s, fed + chunk) == (p.A(), before + used)
  {
    hide Run, Reads;
    ghost var all := fed + chunk;
    used := 0;
    while used < |chunk| && p.state >= ST_NORMAL
      invariant p.Valid() && used <= |chunk| && Fed(s, all, |fed| + used, p.A(), before + used)
      decreases |chunk| - used, p.state + 3
    {
      ghost var m := p.A();
      ghost var k := |fed| + used;
      assert all[k..] == chunk[used..];
      LiveFed(s, all, k, m, before + used);
      var n := p.Consume(chunk[used..]);
      FedStep(s, all, k, m, n, p.A());
      used := used + n;
    }
    FedEnd(s, all, |fed| + used, p.A(), before + used);
  }

  lemma LiveFed(s: State, all: Bytes, k: nat, m: State, total: nat)
    requires Fed(s, all, k, m, total) && !Stopped(m)
    ensures total == k
  {
  }

  /** The unparsed bytes of any value, fed to a new parser in any chunks, end in success with an equal
      value, and what follows them is not used up. */
  method ParseUnparsed(j: Json, rest: Bytes, chunks: seq<Bytes>) returns (p: StreamingParser, total: nat)
    requires Fits(j) && Joined(chunks) == Unparse(j) + rest
    ensures fresh(p) && p.Valid() && p.state == ST_FINAL && p.json == Plain(j) && total == |Unparse(j)|
  {
    p := new StreamingParser();
    total := Drive(p, chunks);
    RoundTrip(j, rest);
  }
}
