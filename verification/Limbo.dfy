/** The queue of retired objects of one thread (kvthread.hh, `limbo_group` and `record_rcu`;
    kvthread.cc, `clean_until`, `hard_rcu_quiesce`, `refill_rcu`): a list of fixed-size groups in
    which an epoch marker precedes the objects of each epoch. Callbacks that record again while they
    run are left out. */
module Limbo {

  /** `limbo_group::capacity`. */
  const CAPACITY: nat := 253
  /** `threadinfo::rcu_free_count`. */
  const FREE_COUNT: nat := 128

  /** `limbo_element`: a marker has a null pointer and an epoch, an object a pointer and a tag. */
  datatype Element = Marker(epoch: int) | Object(ptr: nat, tag: int)

  /** A retired object with the epoch in force when it was recorded. */
  datatype Item = Item(ptr: nat, tag: int, epoch: int)

  /** The objects of a stretch of elements that starts in epoch `e`. */
  function ItemsFrom(s: seq<Element>, e: int): seq<Item> {
    if s == [] then [] else
      match s[0]
      case Marker(x) => ItemsFrom(s[1..], x)
      case Object(p, t) => [Item(p, t, e)] + ItemsFrom(s[1..], e)
  }

  /** The epoch in force at the end of the stretch. */
  function LastEpoch(s: seq<Element>, e: int): int {
    if s == [] then e else LastEpoch(s[1..], if s[0].Marker? then s[0].epoch else e)
  }

  function Items(s: seq<Element>): seq<Item> {
    ItemsFrom(s, 0)
  }

  /** The markers of the stretch go up from `e`. */
  predicate Up(s: seq<Element>, e: int) {
    s == [] || (if s[0].Marker? then e <= s[0].epoch && Up(s[1..], s[0].epoch) else Up(s[1..], e))
  }

  lemma {:induction false} UpAppend(s: seq<Element>, t: seq<Element>, e: int)
    ensures Up(s + t, e) <==> Up(s, e) && Up(t, LastEpoch(s, e))
  {
    if s == [] {
      assert s + t == t;
    } else {
      assert (s + t)[1..] == s[1..] + t;
      UpAppend(s[1..], t, if s[0].Marker? then s[0].epoch else e);
    }
  }

  /** Epochs of objects then go up too. */
  lemma {:induction false} UpItems(s: seq<Element>, e: int)
    requires Up(s, e)
    ensures e <= LastEpoch(s, e)
    ensures forall i :: 0 <= i < |ItemsFrom(s, e)| ==> e <= ItemsFrom(s, e)[i].epoch <= LastEpoch(s, e)
    ensures forall i, j :: 0 <= i < j < |ItemsFrom(s, e)| ==> ItemsFrom(s, e)[i].epoch <= ItemsFrom(s, e)[j].epoch
  {
    if s != [] { UpItems(s[1..], if s[0].Marker? then s[0].epoch else e); }
  }

  lemma {:induction false} ItemsAppend(s: seq<Element>, t: seq<Element>, e: int)
    ensures ItemsFrom(s + t, e) == ItemsFrom(s, e) + ItemsFrom(t, LastEpoch(s, e))
    ensures LastEpoch(s + t, e) == LastEpoch(t, LastEpoch(s, e))
  {
    if s == [] {
      assert s + t == t;
    } else {
      assert (s + t)[1..] == s[1..] + t;
      ItemsAppend(s[1..], t, if s[0].Marker? then s[0].epoch else e);
    }
  }

  lemma PushMarker(s: seq<Element>, ep: int)
    requires (Up(s, 0) && LastEpoch(s, 0) <= ep) || (s == [] && 0 <= ep)
    ensures Up(s + [Marker(ep)], 0) && LastEpoch(s + [Marker(ep)], 0) == ep
  {
    UpAppend(s, [Marker(ep)], 0);
    ItemsAppend(s, [Marker(ep)], 0);
    assert [Marker(ep)][1..] == [];
  }

  lemma PushObject(s: seq<Element>, ptr: nat, tag: int)
    requires Up(s, 0)
    ensures Up(s + [Object(ptr, tag)], 0) && LastEpoch(s + [Object(ptr, tag)], 0) == LastEpoch(s, 0)
  {
    UpAppend(s, [Object(ptr, tag)], 0);
    ItemsAppend(s, [Object(ptr, tag)], 0);
    assert [Object(ptr, tag)][1..] == [];
  }

  /** `limbo_group`. The unions are elements, and the elements from `head` up to `tail` are in use. */
  class Group {
    var head: nat
    var tail: nat
    var epoch: int
    const e: array<Element>

    ghost function Live(): seq<Element>
      requires head <= tail <= e.Length
      reads this, e
    {
      e[head..tail]
    }

    /** A group that is not empty begins with a marker, and `epoch` is its last marker's. */
    ghost predicate Valid()
      reads this, e
    {
      && e.Length == CAPACITY && head <= tail <= CAPACITY && (head == tail ==> head == 0)
      && (head != tail ==> e[head].Marker? && epoch == LastEpoch(Live(), 0) && 0 < e[head].epoch && Up(Live(), 0))
    }

    constructor ()
      ensures Valid() && head == 0 && tail == 0 && fresh(e) && Live() == []
    {
      head, tail, epoch := 0, 0, 0;
      e := new Element[CAPACITY](_ => Marker(0));
    }

    /** `push_back`. */
    method PushBack(ptr: nat, tag: int, ep: int)
      requires Valid() && tail + 2 <= CAPACITY && 0 < ep && (head != tail ==> epoch <= ep)
      modifies this, e
      ensures Valid() && head == old(head) && old(tail) < tail <= old(tail) + 2
      ensures Live() == old(Live()) + (if old(head == tail || epoch != ep) then [Marker(ep)] else [])
        + [Object(ptr, tag)]
    {
      hide ItemsFrom, LastEpoch, Up;
      ghost var live := Live();
      if head == tail || epoch != ep {
        e[tail] := Marker(ep);
        epoch := ep;
        tail := tail + 1;
        assert Live() == live + [Marker(ep)];
        PushMarker(live, ep);
      }
      ghost var marked := Live();
      e[tail] := Object(ptr, tag);
      tail := tail + 1;
      assert Live() == marked + [Object(ptr, tag)];
      PushObject(marked, ptr, tag);
    }

    /** `clean_until`: frees at most `count` objects whose epochs the bound has reached, in order. */
    method CleanUntil(bound: int, count: nat) returns (left: nat, freed: seq<Item>)
      requires Valid() && 0 < count
      modifies this, e
      ensures Valid() && left <= count && |freed| == count - left
      ensures old(Items(Live())) == freed + Items(Live())
      ensures forall i :: 0 <= i < |freed| ==> freed[i].epoch <= bound
      ensures left > 0 && head != tail ==> bound < e[head].epoch
      ensures epoch == old(epoch)
      ensures left == 0 ==> head != tail
      ensures head == tail ==> head == 0
      ensures old(head == tail) ==> head == tail && left == count
    {
      hide Items, ItemsFrom, LastEpoch, Up, Cleaning;
      ghost var live := Live();
      var ep := 0;
      left, freed := count, [];
      CleanStart(live, bound, epoch);
      while head != tail
        invariant head <= tail <= CAPACITY && e.Length == CAPACITY && 0 < left <= count && |freed| == count - left
        invariant epoch == old(epoch) && Cleaning(live, Live(), ep, freed, bound, epoch)
        invariant old(head == tail) ==> head == tail && left == count
        decreases tail - head
      {
        ghost var s := Live();
        assert s[0] == e[head] && s[1..] == e[head + 1..tail];
        if e[head].Object? {
          CleanObject(live, s, ep, freed, bound, epoch);
          freed := freed + [Item(e[head].ptr, e[head].tag, ep)];
          left := left - 1;
          if left == 0 {
            e[head] := Marker(ep);
            assert Live() == [Marker(ep)] + s[1..];
            break;
          }
        } else if bound - e[head].epoch < 0 {
          CleanStop(live, s, ep, freed, bound, epoch);
          break;
        } else {
          CleanMarker(live, s, ep, freed, bound, epoch);
          ep := e[head].epoch;
        }
        head := head + 1;
      }
      if head == tail {
        CleanEnd(live, ep, freed, bound, epoch);
        head, tail := 0, 0;
      }
    }
  }

  // ----- the loop of `clean_until` -----

  /** Of the stretch `live`, `freed` are out and `s`, which starts in epoch `ep`, is left. */
  ghost predicate Cleaning(live: seq<Element>, s: seq<Element>, ep: int, freed: seq<Item>, bound: int, epoch: int) {
    && Items(live) == freed + ItemsFrom(s, ep) && (forall i :: 0 <= i < |freed| ==> freed[i].epoch <= bound)
    && (s != [] ==> epoch == LastEpoch(s, ep) && Up(s, ep) && if s[0].Marker? then 0 < s[0].epoch else 0 < ep <= bound)
  }

  lemma CleanStart(live: seq<Element>, bound: int, epoch: int)
    requires live != [] ==> live[0].Marker? && epoch == LastEpoch(live, 0) && 0 < live[0].epoch && Up(live, 0)
    ensures Cleaning(live, live, 0, [], bound, epoch)
  {
  }

  /** An object goes; if the clean-up stops here, a marker takes its place. */
  lemma CleanObject(live: seq<Element>, s: seq<Element>, ep: int, freed: seq<Item>, bound: int, epoch: int)
    requires Cleaning(live, s, ep, freed, bound, epoch) && s != [] && s[0].Object?
    ensures var out := freed + [Item(s[0].ptr, s[0].tag, ep)];
      var rest := [Marker(ep)] + s[1..];
      && Cleaning(live, s[1..], ep, out, bound, epoch) && Items(live) == out + Items(rest)
      && epoch == LastEpoch(rest, 0) && 0 < ep && Up(rest, 0) && forall i :: 0 <= i < |out| ==> out[i].epoch <= bound
  {
    hide ItemsFrom, LastEpoch, Up;
    FirstElement(s, ep);
    FirstElement(s[1..], ep);
    Assoc(freed, [Item(s[0].ptr, s[0].tag, ep)], ItemsFrom(s[1..], ep));
    var rest := [Marker(ep)] + s[1..];
    assert rest[1..] == s[1..];
    FirstElement(rest, 0);
  }

  lemma CleanMarker(live: seq<Element>, s: seq<Element>, ep: int, freed: seq<Item>, bound: int, epoch: int)
    requires Cleaning(live, s, ep, freed, bound, epoch) && s != [] && s[0].Marker? && s[0].epoch <= bound
    ensures Cleaning(live, s[1..], s[0].epoch, freed, bound, epoch)
  {
    hide ItemsFrom, LastEpoch, Up;
    FirstElement(s, ep);
    FirstElement(s[1..], s[0].epoch);
  }

  lemma CleanStop(live: seq<Element>, s: seq<Element>, ep: int, freed: seq<Item>, bound: int, epoch: int)
    requires Cleaning(live, s, ep, freed, bound, epoch) && s != [] && s[0].Marker?
    ensures Items(live) == freed + Items(s) && epoch == LastEpoch(s, 0) && 0 < s[0].epoch && Up(s, 0)
    ensures forall i :: 0 <= i < |freed| ==> freed[i].epoch <= bound
  {
    hide ItemsFrom, LastEpoch, Up;
    FirstElement(s, ep);
    FirstElement(s, 0);
  }

  lemma CleanEnd(live: seq<Element>, ep: int, freed: seq<Item>, bound: int, epoch: int)
    requires Cleaning(live, [], ep, freed, bound, epoch)
    ensures Items(live) == freed + Items([]) && forall i :: 0 <= i < |freed| ==> freed[i].epoch <= bound
  {
  }

  /** Items, last epoch and order, element by element. */
  lemma FirstElement(s: seq<Element>, e: int)
    ensures s == [] ==> ItemsFrom(s, e) == [] && LastEpoch(s, e) == e && Up(s, e)
    ensures s != [] && s[0].Marker? ==> var x := s[0].epoch;
      && ItemsFrom(s, e) == ItemsFrom(s[1..], x) && LastEpoch(s, e) == LastEpoch(s[1..], x)
      && (Up(s, e) <==> e <= x && Up(s[1..], x))
    ensures s != [] && s[0].Object? ==>
      && ItemsFrom(s, e) == [Item(s[0].ptr, s[0].tag, e)] + ItemsFrom(s[1..], e)
      && LastEpoch(s, e) == LastEpoch(s[1..], e)
      && (Up(s, e) <==> Up(s[1..], e))
  {
  }

  /** A stretch begins with a marker, if it is not empty. */
  predicate Headed(s: seq<Element>) {
    s == [] || (s[0].Marker? && 0 < s[0].epoch)
  }

  /** What comes before a headed stretch does not matter to it. */
  lemma HeadedItems(s: seq<Element>, e: int)
    requires Headed(s) && 0 <= e
    ensures ItemsFrom(s, e) == Items(s) && (s != [] ==> LastEpoch(s, e) == LastEpoch(s, 0)) && (Up(s, e) ==> Up(s, 0))
  {
  }

  function Concat(lives: seq<seq<Element>>): seq<Element> {
    if lives == [] then [] else lives[0] + Concat(lives[1..])
  }

  lemma {:induction false} ConcatAppend(a: seq<seq<Element>>, b: seq<seq<Element>>)
    ensures Concat(a + b) == Concat(a) + Concat(b)
  {
    if a == [] {
      assert a + b == b;
    } else {
      assert (a + b)[1..] == a[1..] + b;
      ConcatAppend(a[1..], b);
    }
  }

  lemma {:induction false} ConcatEmpty(a: seq<seq<Element>>)
    requires forall k :: 0 <= k < |a| ==> a[k] == []
    ensures Concat(a) == []
  {
    if a != [] { ConcatEmpty(a[1..]); }
  }

  lemma {:induction false} ConcatHeaded(a: seq<seq<Element>>)
    requires forall k :: 0 <= k < |a| ==> Headed(a[k])
    ensures Headed(Concat(a))
  {
    if a != [] { ConcatHeaded(a[1..]); }
  }

  lemma ConcatAt(lives: seq<seq<Element>>, h: nat, live: seq<Element>)
    requires h < |lives|
    ensures Concat(lives[h := live]) == Concat(lives[..h]) + live + Concat(lives[h + 1..])
  {
    var a, b := lives[..h], lives[h + 1..];
    assert lives[h := live] == a + [live] + b;
    ConcatAppend(a + [live], b);
    ConcatAppend(a, [live]);
    assert Concat([live]) == live + Concat([]);
  }

  /** The stream of elements is a queue: markers go up, to `newest` at most. */
  ghost predicate StreamOk(s: seq<Element>, newest: int) {
    Headed(s) && Up(s, 0) && LastEpoch(s, 0) <= newest
  }

  /** Recording at the back of the last stretch in use records at the back of the stream. */
  lemma PushStream(lives: seq<seq<Element>>, last: nat, ptr: nat, tag: int, ep: int, newest: int, marked: bool)
    requires last < |lives| && (forall k :: last < k < |lives| ==> lives[k] == [])
    requires forall k :: 0 <= k < |lives| ==> Headed(lives[k])
    requires StreamOk(Concat(lives), newest) && newest <= ep && 0 < ep
    requires !marked ==> lives[last] != [] && LastEpoch(lives[last], 0) == ep
    ensures var live := lives[last] + (if marked then [Marker(ep)] else []) + [Object(ptr, tag)];
      var s := Concat(lives[last := live]);
      StreamOk(s, ep) && Items(s) == Items(Concat(lives)) + [Item(ptr, tag, ep)]
  {
    hide Concat, ItemsFrom, Up, LastEpoch;
    var add := (if marked then [Marker(ep)] else []) + [Object(ptr, tag)];
    var live := lives[last] + add;
    assert live == lives[last] + (if marked then [Marker(ep)] else []) + [Object(ptr, tag)];
    ConcatAt(lives, last, live);
    ConcatAt(lives, last, lives[last]);
    assert lives[last := lives[last]] == lives;
    ConcatEmpty(lives[last + 1..]);
    var s := Concat(lives);
    assert Concat(lives[last := live]) == s + add;
    if !marked { LastOfConcat(lives, last); }
    ItemsAppend(s, add, 0);
    UpAppend(s, add, 0);
    Added(ptr, tag, ep, marked, LastEpoch(s, 0));
    if s == [] { FirstElement(s, 0); }
  }

  lemma Added(ptr: nat, tag: int, ep: int, marked: bool, e: int)
    requires if marked then e <= ep else e == ep
    ensures var add := (if marked then [Marker(ep)] else []) + [Object(ptr, tag)];
      ItemsFrom(add, e) == [Item(ptr, tag, ep)] && LastEpoch(add, e) == ep && Up(add, e)
  {
    var o := [Object(ptr, tag)];
    assert o[1..] == [] && ItemsFrom(o, ep) == [Item(ptr, tag, ep)] && LastEpoch(o, ep) == ep && Up(o, ep);
    var add := (if marked then [Marker(ep)] else []) + o;
    if marked { assert add[1..] == o; } else { assert add == o; }
  }

  lemma LastOfConcat(lives: seq<seq<Element>>, last: nat)
    requires last < |lives| && lives[last] != [] && Headed(lives[last])
    requires forall k :: last < k < |lives| ==> lives[k] == []
    requires Up(Concat(lives), 0)
    ensures LastEpoch(Concat(lives), 0) == LastEpoch(lives[last], 0)
  {
    ConcatAt(lives, last, lives[last]);
    assert lives[last := lives[last]] == lives;
    ConcatEmpty(lives[last + 1..]);
    var a := Concat(lives[..last]);
    assert Concat(lives) == a + lives[last];
    ItemsAppend(a, lives[last], 0);
    UpAppend(a, lives[last], 0);
    UpItems(a, 0);
    HeadedItems(lives[last], LastEpoch(a, 0));
  }

  /** Freeing from the front of the first stretch in use frees from the front of the stream. */
  lemma CleanStream(lives: seq<seq<Element>>, h: nat, live: seq<Element>, freed: seq<Item>, newest: int)
    requires h < |lives| && (forall k :: 0 <= k < h ==> lives[k] == [])
    requires forall k :: 0 <= k < |lives| ==> Headed(lives[k])
    requires StreamOk(Concat(lives), newest) && Items(lives[h]) == freed + Items(live) && Headed(live) && lives[h] != []
    requires live != [] ==> Up(live, 0) && LastEpoch(live, 0) == LastEpoch(lives[h], 0)
    ensures StreamOk(Concat(lives[h := live]), newest)
    ensures Items(Concat(lives)) == freed + Items(Concat(lives[h := live]))
  {
    hide Concat, StreamOk, Items, Up, LastEpoch;
    var rest := Concat(lives[h + 1..]);
    ConcatAt(lives, h, live);
    ConcatAt(lives, h, lives[h]);
    assert lives[h := lives[h]] == lives;
    ConcatEmpty(lives[..h]);
    ConcatHeaded(lives[h + 1..]);
    assert Concat(lives) == lives[h] + rest && Concat(lives[h := live]) == live + rest;
    CleanFront(lives[h], live, rest, freed, newest);
  }

  lemma CleanFront(a: seq<Element>, live: seq<Element>, rest: seq<Element>, freed: seq<Item>, newest: int)
    requires Headed(a) && a != [] && Headed(live) && Headed(rest) && StreamOk(a + rest, newest)
    requires Items(a) == freed + Items(live)
    requires live != [] ==> Up(live, 0) && LastEpoch(live, 0) == LastEpoch(a, 0)
    ensures StreamOk(live + rest, newest) && Items(a + rest) == freed + Items(live + rest)
  {
    hide Items, Up, LastEpoch;
    UpAppend(a, rest, 0);
    UpItems(a, 0);
    HeadedLast(a, live, rest);
    FrontItems(a, rest);
    FrontItems(live, rest);
    Assoc(freed, Items(live), Items(rest));
  }

  lemma FrontItems(a: seq<Element>, rest: seq<Element>)
    requires Headed(rest) && 0 <= LastEpoch(a, 0)
    ensures Items(a + rest) == Items(a) + Items(rest)
  {
    hide ItemsFrom, Up, LastEpoch;
    ItemsAppend(a, rest, 0);
    HeadedItems(rest, LastEpoch(a, 0));
  }

  lemma Assoc<T>(a: seq<T>, b: seq<T>, c: seq<T>)
    ensures a + (b + c) == a + b + c
  {
  }

  lemma HeadedLast(a: seq<Element>, live: seq<Element>, rest: seq<Element>)
    requires Headed(rest) && Up(a + rest, 0) && 0 <= LastEpoch(a, 0)
    requires live != [] ==> Up(live, 0) && LastEpoch(live, 0) == LastEpoch(a, 0)
    ensures Up(a, 0) && Up(live + rest, 0) && 0 <= LastEpoch(live, 0)
    ensures LastEpoch(live + rest, 0) == if live == [] && rest == [] then 0 else LastEpoch(a + rest, 0)
    ensures 0 <= LastEpoch(a + rest, 0)
  {
    hide ItemsFrom, Up, LastEpoch;
    UpAppend(a, rest, 0);
    ItemsAppend(a, rest, 0);
    UpItems(a + rest, 0);
    HeadedItems(rest, LastEpoch(a, 0));
    UpAppend(live, rest, 0);
    ItemsAppend(live, rest, 0);
    FirstElement(live, 0);
    FirstElement(rest, 0);
  }

  lemma CleanedStream(lives: seq<seq<Element>>, h: nat, live: seq<Element>, freed: seq<Item>, newest: int)
    requires h < |lives| && (forall k :: 0 <= k < h ==> lives[k] == [])
    requires forall k :: 0 <= k < |lives| ==> Headed(lives[k])
    requires StreamOk(Concat(lives), newest) && Items(lives[h]) == freed + Items(live) && Headed(live)
    requires lives[h] == [] ==> live == []
    requires live != [] ==> Up(live, 0) && LastEpoch(live, 0) == LastEpoch(lives[h], 0)
    ensures StreamOk(Concat(lives[h := live]), newest)
    ensures Items(Concat(lives)) == freed + Items(Concat(lives[h := live]))
  {
    if lives[h] == [] {
      assert lives[h := live] == lives && freed == [];
    } else {
      CleanStream(lives, h, live, freed, newest);
    }
  }

  /** The stretches from `h` to `last` come first. */
  function Rotated<T>(s: seq<T>, h: nat, last: nat): (r: seq<T>)
    requires h <= last < |s|
    ensures |r| == |s|
    ensures forall i :: 0 <= i < |s| ==> r[i] == s[From(i, h, last)]
  {
    s[h..last + 1] + s[..h] + s[last + 1..]
  }

  function From(i: nat, h: nat, last: nat): (k: nat)
    requires h <= last
    ensures i <= last ==> k <= last
    ensures i > last ==> k == i
  {
    if i <= last - h then i + h else if i <= last then i - (last + 1 - h) else i
  }

  lemma RotatedSame<T>(s: seq<T>, h: nat, last: nat)
    requires h <= last < |s|
    ensures multiset(Rotated(s, h, last)) == multiset(s)
  {
    assert s == s[..h] + s[h..last + 1] + s[last + 1..];
  }

  lemma RotatedStream(lives: seq<seq<Element>>, h: nat, last: nat)
    requires h <= last < |lives| && (forall k :: 0 <= k < h ==> lives[k] == [])
    requires forall k :: last < k < |lives| ==> lives[k] == []
    ensures Concat(Rotated(lives, h, last)) == Concat(lives)
  {
    hide Concat, Rotated;
    var a, b, c := lives[..h], lives[h..last + 1], lives[last + 1..];
    RotatedParts(lives, h, last);
    ConcatEmpty(a);
    ConcatEmpty(c);
    ConcatAppend(a + b, c);
    ConcatAppend(a, b);
    ConcatAppend(b + a, c);
    ConcatAppend(b, a);
    Padding(Concat(b));
  }

  lemma RotatedParts(lives: seq<seq<Element>>, h: nat, last: nat)
    requires h <= last < |lives|
    ensures var a, b, c := lives[..h], lives[h..last + 1], lives[last + 1..];
      lives == a + b + c && Rotated(lives, h, last) == b + a + c
  {
  }

  lemma Padding(s: seq<Element>)
    ensures [] + s == s && s + [] == s
  {
  }

  /** When the first marker of the stream is beyond the bound, so is everything. */
  lemma NothingDue(s: seq<Element>, newest: int, bound: int)
    requires StreamOk(s, newest) && (s != [] ==> bound < s[0].epoch)
    ensures forall i :: 0 <= i < |Items(s)| ==> bound < Items(s)[i].epoch
  {
    if s != [] {
      UpItems(s, s[0].epoch);
      HeadedItems(s, s[0].epoch);
    }
  }

  /** `threadinfo`'s limbo list. `groups` are the groups linked from `limbo_head_`, and `last` is the
      place of `limbo_tail_` among them. */
  class Queue {
    var groups: seq<Group>
    var last: nat
    /** `perform_gc_epoch_`. */
    var performed: int
    ghost var repr: set<object>
    /** No recorded epoch is newer. */
    ghost var newest: int

    ghost predicate Shape()
      reads this
    {
      && last < |groups|
      && (forall i, j :: 0 <= i < j < |groups| ==> groups[i] != groups[j] && groups[i].e != groups[j].e)
      && (forall k :: 0 <= k < |groups| ==> groups[k] in repr && groups[k].e in repr)
      && this !in repr
    }

    /** Every group is in order, and so is the stream of their elements. */
    ghost predicate Sound()
      reads this, repr
    {
      && Shape() && (forall k :: 0 <= k < |groups| ==> groups[k].Valid())
      && (forall k :: last < k < |groups| ==> groups[k].head == groups[k].tail)
    }

    ghost function Lives(): (l: seq<seq<Element>>)
      requires Sound()
      reads this, repr
      ensures |l| == |groups| && forall k :: 0 <= k < |groups| ==> l[k] == groups[k].Live()
    {
      seq(|groups|, k requires 0 <= k < |groups| && Sound() reads this, repr => groups[k].Live())
    }

    ghost predicate Valid()
      reads this, repr
    {
      && Sound() && StreamOk(Concat(Lives()), newest)
      && (forall k :: 0 <= k < last ==> groups[k].head != groups[k].tail)
    }

    /** What is queued, oldest first. */
    ghost function Contents(): seq<Item>
      requires Sound()
      reads this, repr
    {
      Items(Concat(Lives()))
    }

    constructor ()
      ensures Valid() && Contents() == [] && fresh(repr)
    {
      var g := new Group();
      groups, last, performed, repr, newest := [g], 0, 0, {g, g.e}, 0;
      new;
      ConcatEmpty(Lives());
    }

    /** A new group at the end of the list. */
    method AddGroup()
      requires Valid()
      modifies this`groups, this`repr
      ensures Valid() && Contents() == old(Contents())
      ensures old(repr) <= repr && fresh(repr - old(repr)) && |groups| == |old(groups)| + 1 && old(groups) <= groups
    {
      hide Group.Valid, Group.Live, Items, Concat;
      ghost var lives := Lives();
      var g := new Group();
      groups, repr := groups + [g], repr + {g, g.e};
      assert Sound();
      AddedEmpty(lives);
      assert Lives() == lives + [[]];
    }

    /** `refill_rcu`: the next group takes over; it is one that was emptied before, or a new one. */
    method Refill()
      requires Valid() && groups[last].head != groups[last].tail
      modifies this
      ensures Valid() && Contents() == old(Contents()) && last == old(last) + 1
      ensures |groups| == if last < |old(groups)| then |old(groups)| else |old(groups)| + 1
      ensures groups[last].head == groups[last].tail
      ensures old(repr) <= repr && fresh(repr - old(repr)) && old(groups) <= groups && performed == old(performed)
      ensures newest == old(newest)
    {
      hide Group.Valid, Group.Live, Items, Concat;
      if last + 1 == |groups| {
        AddGroup();
      }
      ghost var lives := Lives();
      last := last + 1;
      assert Lives() == lives;
    }

    /** `record_rcu`: the object goes to the back of the queue with the global epoch. */
    method Record(ptr: nat, tag: int, globalEpoch: int)
      requires Valid() && newest <= globalEpoch && 0 < globalEpoch
      modifies this, repr
      ensures Valid() && Contents() == old(Contents()) + [Item(ptr, tag, globalEpoch)]
      ensures last == old(if groups[last].tail + 2 > CAPACITY then last + 1 else last)
      ensures |groups| == if last < |old(groups)| then |old(groups)| else |old(groups)| + 1
      ensures old(repr) <= repr && fresh(repr - old(repr)) && old(groups) <= groups && performed == old(performed)
    {
      hide Group.Valid, Group.Live, Items, Concat;
      if groups[last].tail + 2 > CAPACITY {
        NotEmpty(groups[last]);
        Refill();
        EmptyAtFront(groups[last]);
      }
      PushLast(ptr, tag, globalEpoch);
    }

    method PushLast(ptr: nat, tag: int, globalEpoch: int)
      requires Valid() && newest <= globalEpoch && 0 < globalEpoch && groups[last].tail + 2 <= CAPACITY
      modifies this`newest, groups[last], groups[last].e
      ensures Valid() && Contents() == old(Contents()) + [Item(ptr, tag, globalEpoch)]
    {
      hide Group.Valid, Group.Live, Items, Concat, StreamOk;
      ghost var lives := Lives();
      AllHeaded();
      var g := groups[last];
      if g.head != g.tail { LastEpochIs(); }
      PushStream(lives, last, ptr, tag, globalEpoch, newest, g.head == g.tail || g.epoch != globalEpoch);
      g.PushBack(ptr, tag, globalEpoch);
      newest := globalEpoch;
      forall k | 0 <= k < |groups| ensures groups[k].Valid() {
        if k != last { assert old(groups[k].Valid()); }
      }
      LiveHeaded(g);
      assert Lives() == lives[last := g.Live()];
    }

    lemma AllHeaded()
      requires Sound()
      ensures forall k ::
        0 <= k < |groups| ==> Headed(Lives()[k]) && (Lives()[k] == [] <==> groups[k].head == groups[k].tail)
    {
    }

    /** The last group's epoch is the newest of all. */
    lemma LastEpochIs()
      requires Valid() && groups[last].head != groups[last].tail
      ensures LastEpoch(Lives()[last], 0) == groups[last].epoch <= newest
    {
      AllHeaded();
      LastOfConcat(Lives(), last);
    }

    /** `first_epoch`: a group in use begins with a marker. */
    static function FirstEpoch(g: Group): int
      requires g.Valid() && g.head != g.tail
      reads g, g.e
    {
      g.e[g.head].epoch
    }

    /** If the first group is empty, or its first epoch is beyond the bound, nothing is due. */
    lemma NothingYet(bound: int)
      requires Sound() && StreamOk(Concat(Lives()), newest) && groups[0].Valid()
      requires if groups[0].head == groups[0].tail then last == 0 else bound < FirstEpoch(groups[0])
      ensures forall i :: 0 <= i < |Contents()| ==> bound < Contents()[i].epoch
    {
      AllHeaded();
      if groups[0].head == groups[0].tail {
        ConcatEmpty(Lives());
      } else {
        assert Lives()[0][0] == groups[0].e[groups[0].head];
        assert Concat(Lives()) == Lives()[0] + Concat(Lives()[1..]);
        NothingDue(Concat(Lives()), newest, bound);
      }
    }

    /** `hard_rcu_quiesce`: objects whose epochs lie below the active epoch are freed in the order in
        which they were recorded, at most `FREE_COUNT` of them; emptied groups go behind the last. */
    method Quiesce(activeEpoch: int) returns (freed: seq<Item>)
      requires Valid()
      modifies this, repr
      ensures Valid() && old(Contents()) == freed + Contents() && |freed| <= FREE_COUNT
      ensures forall i :: 0 <= i < |freed| ==> freed[i].epoch < activeEpoch
      ensures |freed| < FREE_COUNT ==> forall i :: 0 <= i < |Contents()| ==> activeEpoch <= Contents()[i].epoch
      ensures multiset(groups) == multiset(old(groups)) && repr == old(repr)
      ensures performed == if |freed| == FREE_COUNT then activeEpoch - 1 else activeEpoch
    {
      hide Group.Valid, Group.Live, Items, Concat, StreamOk;
      var bound := activeEpoch - 1;
      freed := [];
      var g := groups[0];
      if g.head == g.tail || bound - FirstEpoch(g) < 0 {
        NothingYet(bound);
        SetPerformed(bound + 1);
        return;
      }
      var count, h := FREE_COUNT, 0;
      count, h, freed := CleanGroups(bound);
      Recycle(h, bound, count);
      SetPerformed(if count == 0 then bound else bound + 1);
    }

    method SetPerformed(e: int)
      requires Valid()
      modifies this`performed
      ensures Valid() && Contents() == old(Contents()) && performed == e
    {
      hide Group.Valid, Group.Live, Items, Concat, StreamOk;
      ghost var lives := Lives();
      performed := e;
      assert Lives() == lives;
    }

    /** Groups before `h` are empty; group `h` and those up to the last are not, but for group `h` if
        it is the last. */
    ghost predicate Cleaned(h: nat)
      reads this, repr
    {
      && Sound() && h <= last && StreamOk(Concat(Lives()), newest)
      && (forall k :: 0 <= k < h ==> groups[k].head == groups[k].tail)
      && (forall k :: h < k < last ==> groups[k].head != groups[k].tail)
    }

    /** The loop of `hard_rcu_quiesce`. */
    method CleanGroups(bound: int) returns (count: nat, h: nat, freed: seq<Item>)
      requires Valid() && groups[0].head != groups[0].tail
      modifies repr
      ensures Cleaned(h) && repr == old(repr) && groups == old(groups) && last == old(last)
      ensures old(Contents()) == freed + Contents() && count <= FREE_COUNT && |freed| == FREE_COUNT - count
      ensures forall i :: 0 <= i < |freed| ==> freed[i].epoch <= bound
      ensures groups[h].head == groups[h].tail ==> h == last
      ensures count > 0 && groups[h].head != groups[h].tail ==> groups[h].Valid() && bound < FirstEpoch(groups[h])
    {
      hide Group.Valid, Group.Live, Items, Concat, StreamOk;
      count, h, freed := FREE_COUNT, 0, [];
      while count > 0
        invariant Cleaned(h) && repr == old(repr) && groups == old(groups) && last == old(last)
        invariant old(Contents()) == freed + Contents() && count <= FREE_COUNT && |freed| == FREE_COUNT - count
        invariant forall i :: 0 <= i < |freed| ==> freed[i].epoch <= bound
        invariant groups[h].head == groups[h].tail ==> h == last
        decreases last - h
      {
        var f;
        count, f := CleanOne(h, bound, count);
        freed := freed + f;
        if groups[h].head != groups[h].tail || h == last {
          break;
        }
        h := h + 1;
      }
    }

    method CleanOne(h: nat, bound: int, count: nat) returns (left: nat, freed: seq<Item>)
      requires Cleaned(h) && 0 < count
      modifies groups[h], groups[h].e
      ensures Cleaned(h) && left <= count && |freed| == count - left
      ensures old(Contents()) == freed + Contents()
      ensures forall i :: 0 <= i < |freed| ==> freed[i].epoch <= bound
      ensures left == 0 ==> groups[h].head != groups[h].tail
      ensures left > 0 && groups[h].head != groups[h].tail ==> groups[h].Valid() && bound < FirstEpoch(groups[h])
      ensures forall k ::
        0 <= k < |groups| && k != h ==> groups[k].head == old(groups[k].head) && groups[k].tail == old(groups[k].tail)
    {
      hide Group.Valid, Group.Live, Items, Concat, StreamOk, Up, LastEpoch, Headed;
      ghost var lives := Lives();
      AllHeaded();
      LiveHeaded(groups[h]);
      left, freed := groups[h].CleanUntil(bound, count);
      forall k | 0 <= k < |groups| ensures groups[k].Valid() {
        if k != h { assert old(groups[k].Valid()); }
      }
      LiveHeaded(groups[h]);
      CleanedStream(lives, h, groups[h].Live(), freed, newest);
      assert Lives() == lives[h := groups[h].Live()];
    }

    /** Emptied groups are hooked behind the last, or the list starts over if all are empty. */
    method Recycle(h: nat, bound: int, ghost count: nat)
      requires Cleaned(h) && (groups[h].head == groups[h].tail ==> h == last)
      requires count > 0 && groups[h].head != groups[h].tail ==> groups[h].Valid() && bound < FirstEpoch(groups[h])
      modifies this`groups, this`last
      ensures Valid() && Contents() == old(Contents()) && multiset(groups) == multiset(old(groups))
      ensures count > 0 ==> forall i :: 0 <= i < |Contents()| ==> bound < Contents()[i].epoch
    {
      hide Group.Valid, Group.Live, Items, Concat, StreamOk, Rotated, From;
      ghost var lives := Lives();
      AllHeaded();
      if groups[h].head == groups[h].tail {
        last := 0;
        assert Lives() == lives;
        NothingYet(bound);
      } else {
        RotatedSame(groups, h, last);
        RotatedStream(lives, h, last);
        Rotate(h);
        if count > 0 { NothingYet(bound); }
      }
    }

    method Rotate(h: nat)
      requires Cleaned(h)
      modifies this`groups, this`last
      ensures groups == Rotated(old(groups), h, old(last)) && last == old(last) - h && groups[0] == old(groups[h])
      ensures Sound() && Lives() == Rotated(old(Lives()), h, old(last))
      ensures old(groups[h].head) != old(groups[h].tail) ==> forall k ::
        0 <= k < last ==> groups[k].head != groups[k].tail
    {
      hide Group.Valid, Group.Live, Items, Concat, StreamOk, Rotated, From;
      ghost var was := last;
      groups, last := Rotated(groups, h, last), last - h;
      FromDistinct(h, was);
      assert Sound();
    }
  }

  lemma FromDistinct(h: nat, last: nat)
    requires h <= last
    ensures forall i: nat, j: nat :: i < j ==> From(i, h, last) != From(j, h, last)
    ensures forall i: nat :: last - h < i <= last ==> From(i, h, last) < h
    ensures forall i: nat :: i <= last - h ==> From(i, h, last) == i + h
    ensures forall i: nat :: last < i ==> From(i, h, last) == i
  {
  }

  lemma LiveHeaded(g: Group)
    requires g.Valid()
    ensures g.head <= g.tail <= g.e.Length && Headed(g.Live()) && (g.Live() == [] <==> g.head == g.tail)
    ensures g.Live() != [] ==> Up(g.Live(), 0) && LastEpoch(g.Live(), 0) == g.epoch
  {
  }

  lemma NotEmpty(g: Group)
    requires g.Valid() && g.tail + 2 > CAPACITY
    ensures g.head != g.tail
  {
  }

  lemma EmptyAtFront(g: Group)
    requires g.Valid() && g.head == g.tail
    ensures g.tail == 0
  {
  }

  lemma AddedEmpty(lives: seq<seq<Element>>)
    ensures Concat(lives + [[]]) == Concat(lives)
  {
    ConcatAppend(lives, [[]]);
    ConcatEmpty([[]]);
  }
}
