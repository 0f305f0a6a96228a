/** What a leaf's permutation means: a sequence of the slot numbers 0..WIDTH-1, the first `size` of
    them in use and in key order, the rest free. The functions are the list operations that the
    packed word of kpermuter.hh stands for. */
module PermList {

  /** A permutation of 0..w-1. */
  ghost predicate IsPerm(s: seq<nat>, w: nat) {
    && |s| == w
    && (forall i :: 0 <= i < w ==> s[i] < w)
    && (forall i, j :: 0 <= i < j < w ==> s[i] != s[j])
  }

  lemma Rearranged(s: seq<nat>, r: seq<nat>, w: nat, from: nat -> nat)
    requires IsPerm(s, w) && |r| == w && forall k :: 0 <= k < w ==> from(k) < w && r[k] == s[from(k)]
    requires forall i, j :: 0 <= i < j < w ==> from(i) != from(j)
    ensures IsPerm(r, w)
  {
    forall i, j | 0 <= i < j < w ensures r[i] != r[j] {
      assert r[i] == s[from(i)] && r[j] == s[from(j)];
      assert from(i) < from(j) || from(j) < from(i);
    }
  }

  /** 0, 1, ..., n-1 and then the free numbers, so that the back of the list gives n, n+1, ... next
      (`make_sorted`; `make_empty` for n = 0). */
  function MakeSorted(w: nat, n: nat): (r: seq<nat>)
    requires n <= w
    ensures |r| == w && (forall i :: 0 <= i < n ==> r[i] == i) && (n < w ==> r[w - 1] == n)
  {
    seq(w, i requires 0 <= i < w => if i < n then i else w - 1 - (i - n))
  }

  lemma MakeSortedPerm(w: nat, n: nat)
    requires n <= w
    ensures IsPerm(MakeSorted(w, n), w)
  {
  }

  /** The last element moves to position `i` (`insert_from_back`). */
  function InsertFromBack(s: seq<nat>, i: nat): (r: seq<nat>)
    requires i < |s|
    ensures |r| == |s|
    ensures forall k :: 0 <= k < |s| ==> r[k] == if k < i then s[k] else if k == i then s[|s| - 1] else s[k - 1]
  {
    s[..i] + [s[|s| - 1]] + s[i..|s| - 1]
  }

  /** The element at position `i` moves to position `n - 1` (`remove` from a permuter of size `n`). */
  function RemoveAt(s: seq<nat>, n: nat, i: nat): (r: seq<nat>)
    requires i < n <= |s|
    ensures |r| == |s|
    ensures forall k :: 0 <= k < |s| ==> r[k] == if k < i || n <= k then s[k] else if k == n - 1 then s[i] else s[k + 1]
  {
    s[..i] + s[i + 1..n] + [s[i]] + s[n..]
  }

  /** Positions `i` and `j` change places (`exchange`). */
  function Exchange(s: seq<nat>, i: nat, j: nat): (r: seq<nat>)
    requires i < |s| && j < |s|
    ensures |r| == |s|
    ensures forall k :: 0 <= k < |s| ==> r[k] == if k == i then s[j] else if k == j then s[i] else s[k]
  {
    s[i := s[j]][j := s[i]]
  }

  /** The element at position `i` moves to the back (`remove_to_back`). */
  function RemoveToBack(s: seq<nat>, i: nat): (r: seq<nat>)
    requires i < |s|
    ensures |r| == |s|
    ensures forall k :: 0 <= k < |s| ==> r[k] == if k < i then s[k] else if k == |s| - 1 then s[i] else s[k + 1]
  {
    s[..i] + s[i + 1..] + [s[i]]
  }

  /** The element at position `j` moves down to position `i` (`insert_selected`). */
  function InsertSelected(s: seq<nat>, i: nat, j: nat): (r: seq<nat>)
    requires i <= j < |s|
    ensures |r| == |s|
    ensures forall k :: 0 <= k < |s| ==> r[k] == if k < i || j < k then s[k] else if k == i then s[j] else s[k - 1]
  {
    s[..i] + [s[j]] + s[i..j] + s[j + 1..]
  }

  lemma InsertSelectedPerm(s: seq<nat>, w: nat, i: nat, j: nat)
    requires IsPerm(s, w) && i <= j < w
    ensures IsPerm(InsertSelected(s, i, j), w)
  {
    var r := InsertSelected(s, i, j);
    var from := (k: nat) => if k < i || j < k then k else if k == i then j else k - 1;
    Rearranged(s, r, w, from);
  }

  /** Positions `i` to `j - 1` go behind the others from `j` on (`rotate`). */
  function Rotate(s: seq<nat>, i: nat, j: nat): (r: seq<nat>)
    requires i <= j <= |s|
    ensures |r| == |s|
    ensures forall k :: 0 <= k < |s| ==>
      r[k] == if k < i then s[k] else if k < |s| - (j - i) then s[k + (j - i)] else s[k - (|s| - j)]
  {
    s[..i] + s[j..] + s[i..j]
  }

  lemma RotatePerm(s: seq<nat>, w: nat, i: nat, j: nat)
    requires IsPerm(s, w) && i <= j <= w
    ensures IsPerm(Rotate(s, i, j), w)
  {
    var r := Rotate(s, i, j);
    var from := (k: nat) => if k < i then k else if k < w - (j - i) then k + (j - i) else k - (w - j);
    Rearranged(s, r, w, from);
  }

  /** Values `a` and `b` change places (`exchange_values`). */
  function ExchangeValues(s: seq<nat>, a: nat, b: nat): (r: seq<nat>)
    ensures |r| == |s|
    ensures forall k :: 0 <= k < |s| && s[k] == a ==> r[k] == b
    ensures forall k :: 0 <= k < |s| && s[k] == b ==> r[k] == a
    ensures forall k :: 0 <= k < |s| && s[k] != a && s[k] != b ==> r[k] == s[k]
  {
    seq(|s|, k requires 0 <= k < |s| => if s[k] == a then b else if s[k] == b then a else s[k])
  }

  lemma ExchangeValuesPerm(s: seq<nat>, w: nat, a: nat, b: nat)
    requires IsPerm(s, w) && a < w && b < w
    ensures IsPerm(ExchangeValues(s, a, b), w)
  {
  }

  /** `i + (k - i + d) mod (n - i)` */
  function Turned(i: nat, n: nat, d: nat, k: nat): nat
    requires i <= k < n
  {
    i + (k - i + d) % (n - i)
  }

  lemma TurnedIs(i: nat, n: nat, d: nat, k: nat)
    requires i <= k < n && d <= n - i
    ensures Turned(i, n, d, k) == if k + d < n then k + d else k + d - (n - i)
  {
    Wrap(k - i + d, n - i);
  }

  lemma Wrap(x: nat, m: nat)
    requires x < 2 * m
    ensures x % m == if x < m then x else x - m
  {
  }

  /** What the comment of `rotate` says of the elements in use: they are rotated among themselves. */
  ghost predicate RotatesInUse(s: seq<nat>, n: nat, i: nat, j: nat)
    requires i <= j <= n <= |s|
  {
    forall k {:trigger Turned(i, n, j - i, k)} :: i <= k < n ==>
      Turned(i, n, j - i, k) < |s| && Rotate(s, i, j)[k] == s[Turned(i, n, j - i, k)]
  }

  /** The code rotates up to the width, so what the comment says holds just when all elements are in
      use or nothing moves. */
  lemma RotateComment(s: seq<nat>, n: nat, i: nat, j: nat)
    requires IsPerm(s, |s|) && i <= j <= n <= |s|
    ensures RotatesInUse(s, n, i, j) <==> n == |s| || i == j
  {
    hide Turned;
    var d := j - i;
    if n == |s| || d == 0 {
      forall k | i <= k < n ensures Turned(i, n, d, k) < |s| && Rotate(s, i, j)[k] == s[Turned(i, n, d, k)] {
        TurnedIs(i, n, d, k);
      }
    } else {
      var k := if d == n - i then i else n - d;
      TurnedIs(i, n, d, k);
      assert Rotate(s, i, j)[k] != s[Turned(i, n, d, k)];
    }
  }

  lemma RemoveToBackPerm(s: seq<nat>, w: nat, i: nat)
    requires IsPerm(s, w) && i < w
    ensures IsPerm(RemoveToBack(s, i), w)
  {
    assert RemoveToBack(s, i) == RemoveAt(s, w, i);
    RemoveAtPerm(s, w, w, i);
  }

  lemma InsertFromBackPerm(s: seq<nat>, w: nat, i: nat)
    requires IsPerm(s, w) && i < w
    ensures IsPerm(InsertFromBack(s, i), w)
  {
    var r := InsertFromBack(s, i);
    var from := (k: nat) => if k < i then k else if k == i then w - 1 else k - 1;
    Rearranged(s, r, w, from);
  }

  lemma RemoveAtPerm(s: seq<nat>, w: nat, n: nat, i: nat)
    requires IsPerm(s, w) && i < n <= w
    ensures IsPerm(RemoveAt(s, n, i), w)
  {
    var r := RemoveAt(s, n, i);
    var from := (k: nat) => if k < i || n <= k then k else if k == n - 1 then i else k + 1;
    Rearranged(s, r, w, from);
  }

  lemma ExchangePerm(s: seq<nat>, w: nat, i: nat, j: nat)
    requires IsPerm(s, w) && i < w && j < w
    ensures IsPerm(Exchange(s, i, j), w)
  {
  }
}
