/** The packed permuter of kpermuter.hh: a word whose lowest four bits are the size and whose next
    groups of four bits are the elements. Each operation shifts and masks the whole word, and refines
    the list operation in PermList. */
module Permuter {
  import opened PermList

  // ----- digits of four bits -----

  /** A small number as a word. */
  function Bits(n: nat): (b: bv64)
    requires n < 16
    ensures b < 16
  {
    match n
    case 0 => 0 case 1 => 1 case 2 => 2 case 3 => 3 case 4 => 4 case 5 => 5 case 6 => 6 case 7 => 7
    case 8 => 8 case 9 => 9 case 10 => 10 case 11 => 11 case 12 => 12 case 13 => 13 case 14 => 14 case _ => 15
  }

  /** A word of four bits as a number. */
  function Num(b: bv64): (n: nat)
    ensures n < 16
  {
    if b == 0 then 0 else if b == 1 then 1 else if b == 2 then 2 else if b == 3 then 3
    else if b == 4 then 4 else if b == 5 then 5 else if b == 6 then 6 else if b == 7 then 7
    else if b == 8 then 8 else if b == 9 then 9 else if b == 10 then 10 else if b == 11 then 11
    else if b == 12 then 12 else if b == 13 then 13 else if b == 14 then 14 else 15
  }

  lemma NumBits(n: nat)
    requires n < 16
    ensures Num(Bits(n)) == n
  {
  }

  lemma BitsNum(b: bv64)
    requires b < 16
    ensures Bits(Num(b)) == b
  {
  }

  function Nib(x: bv64, k: bv64): (d: bv64)
    requires k < 16
    ensures d < 16
  {
    (x >> (k << 2)) & 15
  }

  function Digit(x: bv64, k: nat): (d: nat)
    requires k < 16
    ensures d < 16
  {
    Num(Nib(x, Bits(k)))
  }

  function Shl(x: bv64, m: bv64): bv64
    requires m < 16
  {
    x << (m << 2)
  }

  function Shr(x: bv64, m: bv64): bv64
    requires m < 16
  {
    x >> (m << 2)
  }

  /** `x << (m << 2)` */
  function Up(x: bv64, m: nat): bv64
    requires m < 16
  {
    Shl(x, Bits(m))
  }

  /** `x >> (m << 2)` */
  function Down(x: bv64, m: nat): bv64
    requires m < 16
  {
    Shr(x, Bits(m))
  }

  // The operators on words, named so that the proofs below can take them as functions of digits.

  function And(x: bv64, y: bv64): bv64 {
    x & y
  }

  function Or(x: bv64, y: bv64): bv64 {
    x | y
  }

  function Xor(x: bv64, y: bv64): bv64 {
    x ^ y
  }

  function Not(x: bv64): bv64 {
    !x
  }

  function Next(x: bv64): bv64 {
    x + 1
  }

  function Prev(x: bv64): bv64 {
    x - 1
  }

  /** The mask `((value_type) 16 << (i << 2)) - 1` of the digits up to `i`. */
  function Low(i: nat): bv64
    requires i < 16
  {
    Prev(Up(16, i))
  }

  lemma BitsNext(i: nat)
    requires i < 15
    ensures Bits(i + 1) == Bits(i) + 1
  {
  }

  lemma {:induction false} BitsAdd(i: nat, j: nat)
    requires i + j < 16
    ensures Bits(i + j) == Bits(i) + Bits(j)
    decreases j
  {
    Zero();
    hide Bits;
    if j > 0 {
      BitsAdd(i, j - 1);
      BitsNext(i + j - 1);
      BitsNext(j - 1);
    }
  }

  lemma BitsLess(i: nat, j: nat)
    requires i < j < 16
    ensures Bits(i) < Bits(j)
  {
  }

  lemma NibUp(x: bv64, m: bv64, k: bv64)
    requires k < 16 && m < 16 && k + m < 16
    ensures Nib(Shl(x, m), k + m) == Nib(x, k)
  {
  }

  lemma NibUpLow(x: bv64, m: bv64, k: bv64)
    requires k < m < 16
    ensures Nib(Shl(x, m), k) == 0
  {
  }

  lemma NibDown(x: bv64, m: bv64, k: bv64)
    requires k < 16 && m < 16 && k + m < 16
    ensures Nib(Shr(x, m), k) == Nib(x, k + m)
  {
  }

  lemma NibDownHigh(x: bv64, m: bv64, k: bv64)
    requires k < 16 && m < 16 && 16 <= k + m
    ensures Nib(Shr(x, m), k) == 0
  {
  }

  lemma NibLow(i: bv64, k: bv64)
    requires i < 16 && k < 16
    ensures Nib(Prev(Shl(16, i)), k) == if k <= i then 15 else 0
  {
  }

  lemma NibSmall(b: bv64, k: bv64)
    requires b < 16 && k < 16
    ensures Nib(b, k) == if k == 0 then b else 0
  {
  }

  lemma NibOr(x: bv64, y: bv64, k: bv64)
    requires k < 16
    ensures Nib(x, k) == 0 ==> Nib(Or(x, y), k) == Nib(y, k)
    ensures Nib(y, k) == 0 ==> Nib(Or(x, y), k) == Nib(x, k)
  {
  }

  lemma NibAnd(x: bv64, m: bv64, k: bv64)
    requires k < 16
    ensures Nib(m, k) == 15 ==> Nib(And(x, m), k) == Nib(x, k)
    ensures Nib(m, k) == 0 ==> Nib(And(x, m), k) == 0
  {
  }

  lemma NibStep(x: bv64, k: bv64)
    requires k < 16
    ensures Nib(x, 0) < 15 ==> Nib(Next(x), k) == if k == 0 then Nib(x, 0) + 1 else Nib(x, k)
    ensures 0 < Nib(x, 0) ==> Nib(Prev(x), k) == if k == 0 then Nib(x, 0) - 1 else Nib(x, k)
  {
  }

  lemma NibNot(m: bv64, k: bv64)
    requires k < 16
    ensures Nib(m, k) == 15 ==> Nib(Not(m), k) == 0
    ensures Nib(m, k) == 0 ==> Nib(Not(m), k) == 15
  {
  }

  // ----- what the shifts and masks do to the digits -----

  lemma DigitUp(x: bv64, m: nat, k: nat)
    requires m < 16 && k < 16
    ensures Digit(Up(x, m), k) == if k < m then 0 else Digit(x, k - m)
  {
    hide Nib, Bits, Num, Shl;
    if k < m {
      BitsLess(k, m);
      NibUpLow(x, Bits(m), Bits(k));
      Zero();
    } else {
      BitsAdd(k - m, m);
      NibUp(x, Bits(m), Bits(k - m));
    }
  }

  lemma Zero()
    ensures Num(0) == 0 && Num(15) == 15 && Bits(0) == 0 && Bits(15) == 15
  {
  }

  lemma DigitDown(x: bv64, m: nat, k: nat)
    requires m < 16 && k < 16
    ensures Digit(Down(x, m), k) == if k + m < 16 then Digit(x, k + m) else 0
  {
    hide Nib, Bits, Num, Shr;
    if k + m < 16 {
      BitsAdd(k, m);
      NibDown(x, Bits(m), Bits(k));
    } else {
      BitsOver(k, m);
      NibDownHigh(x, Bits(m), Bits(k));
      Zero();
    }
  }

  lemma BitsOver(i: nat, j: nat)
    requires i < 16 && j < 16 && 16 <= i + j
    ensures 16 <= Bits(i) + Bits(j)
  {
    hide Bits;
    BitsAdd(i, 15 - i);
    BitsAdd(15 - i, i + j - 15);
    BitsLess(0, i + j - 15);
    Zero();
    OverFifteen(Bits(i), Bits(15 - i), Bits(i + j - 15));
  }

  lemma OverFifteen(a: bv64, b: bv64, c: bv64)
    requires a < 16 && b < 16 && a + b == 15 && 0 < c < 16
    ensures 16 <= a + (b + c)
  {
  }

  lemma DigitLow(i: nat, k: nat)
    requires i < 16 && k < 16
    ensures Digit(Low(i), k) == if k <= i then 15 else 0
  {
    hide Nib, Bits, Num, Shl, Prev;
    NibLow(Bits(i), Bits(k));
    if i < k { BitsLess(i, k); } else if k < i { BitsLess(k, i); }
    Zero();
  }

  lemma DigitSmall(n: nat, k: nat)
    requires n < 16 && k < 16
    ensures Digit(Bits(n), k) == if k == 0 then n else 0
  {
    hide Nib;
    NibSmall(Bits(n), Bits(k));
    NumBits(n);
    if k > 0 { BitsLess(0, k); }
  }

  lemma Ends(b: bv64)
    requires b < 16
    ensures (Num(b) == 0 <==> b == 0) && (Num(b) == 15 <==> b == 15)
  {
  }

  /** Where one word has no digit, the other shows. */
  lemma DigitOr(x: bv64, y: bv64, k: nat)
    requires k < 16
    ensures Digit(x, k) == 0 ==> Digit(Or(x, y), k) == Digit(y, k)
    ensures Digit(y, k) == 0 ==> Digit(Or(x, y), k) == Digit(x, k)
  {
    hide Nib, Bits, Num, Or;
    NibOr(x, y, Bits(k));
    Ends(Nib(x, Bits(k)));
    Ends(Nib(y, Bits(k)));
  }

  lemma DigitAnd(x: bv64, m: bv64, k: nat)
    requires k < 16
    ensures Digit(m, k) == 15 ==> Digit(And(x, m), k) == Digit(x, k)
    ensures Digit(m, k) == 0 ==> Digit(And(x, m), k) == 0
  {
    hide Nib, Bits, Num, And;
    NibAnd(x, m, Bits(k));
    Ends(Nib(m, Bits(k)));
    Ends(0);
  }

  lemma DigitNot(m: bv64, k: nat)
    requires k < 16
    ensures Digit(m, k) == 15 ==> Digit(Not(m), k) == 0
    ensures Digit(m, k) == 0 ==> Digit(Not(m), k) == 15
  {
    hide Nib, Bits, Num, Not;
    NibNot(m, Bits(k));
    Ends(Nib(m, Bits(k)));
    Ends(0);
    Ends(15);
  }

  lemma DigitStep(x: bv64, k: nat)
    requires k < 16
    ensures Digit(x, 0) < 15 ==> Digit(Next(x), k) == if k == 0 then Digit(x, 0) + 1 else Digit(x, k)
    ensures 0 < Digit(x, 0) ==> Digit(Prev(x), k) == if k == 0 then Digit(x, 0) - 1 else Digit(x, k)
  {
    hide Nib, Next, Prev;
    NibStep(x, Bits(k));
    if k > 0 { BitsLess(0, k); }
  }

  function XorDigit(a: nat, b: nat): (d: nat)
    requires a < 16 && b < 16
    ensures d < 16
  {
    Num(Bits(a) ^ Bits(b))
  }

  lemma DownXor(x: bv64, y: bv64)
    ensures Down(Xor(x, y), 1) == Xor(Down(x, 1), Down(y, 1))
  {
    hide Down;
    DownOne(x);
    DownOne(y);
    DownOne(x ^ y);
    FourXor(x, y);
  }

  lemma DownOne(x: bv64)
    ensures Down(x, 1) == x >> 4
  {
  }

  lemma FourXor(x: bv64, y: bv64)
    ensures (x ^ y) >> 4 == (x >> 4) ^ (y >> 4)
  {
  }

  lemma LowestXor(x: bv64, y: bv64)
    ensures Nib(Xor(x, y), 0) == Nib(x, 0) ^ Nib(y, 0)
  {
  }

  lemma {:induction false} DigitXor(x: bv64, y: bv64, k: nat)
    requires k < 16
    ensures Digit(Xor(x, y), k) == XorDigit(Digit(x, k), Digit(y, k))
    decreases k
  {
    if k == 0 {
      hide Nib, Num, Xor;
      Zero();
      LowestXor(x, y);
      BitsNum(Nib(x, 0));
      BitsNum(Nib(y, 0));
    } else {
      hide Digit, XorDigit, Xor, Down;
      DigitXor(Down(x, 1), Down(y, 1), k - 1);
      DownXor(x, y);
      DigitDown(x, 1, k - 1);
      DigitDown(y, 1, k - 1);
      DigitDown(Xor(x, y), 1, k - 1);
    }
  }

  lemma XorLaws(a: nat, b: nat)
    requires a < 16 && b < 16
    ensures XorDigit(a, 0) == a && XorDigit(0, a) == a && XorDigit(a, a) == 0
    ensures XorDigit(a, XorDigit(a, b)) == b && XorDigit(a, XorDigit(b, a)) == b
  {
    hide Bits, Num;
    var x, y := Bits(a), Bits(b);
    NumBits(a);
    NumBits(b);
    Zero();
    SmallXor(x, y);
    BitsNum(x ^ y);
    BitsNum(y ^ x);
  }

  lemma SmallXor(x: bv64, y: bv64)
    requires x < 16 && y < 16
    ensures x ^ y < 16 && x ^ 0 == x && 0 ^ x == x && x ^ x == 0 && x ^ (x ^ y) == y && x ^ (y ^ x) == y && y ^ x < 16
  {
  }

  // ----- the permuter -----

  /** Permuters of up to seven elements are 32 bits wide, others 64. */
  function Cut(w: nat, x: bv64): bv64 {
    if w <= 7 then And(x, 0xFFFF_FFFF) else x
  }

  lemma CutDigit(w: nat, x: bv64, k: nat)
    requires k <= w <= 15
    ensures Digit(Cut(w, x), k) == Digit(x, k)
  {
    if w <= 7 {
      LowSeven();
      DigitLow(7, k);
      hide Digit, Low, And;
      DigitAnd(x, 0xFFFF_FFFF, k);
    }
  }

  lemma LowSeven()
    ensures Low(7) == 0xFFFF_FFFF
  {
  }

  /** `initial_value` and `full_value` for a width. */
  function Initial(w: nat): bv64 {
    if w <= 3 then 0x0120 else if w <= 7 then 0x0123_4560 else 0x0123_4567_89AB_CDE0
  }

  function Full(w: nat): bv64 {
    if w <= 3 then 0x2100 else if w <= 7 then 0x6543_2100 else 0xEDCB_A987_6543_2100
  }

  function MaxWidth(w: nat): (m: nat)
    ensures w <= 15 ==> w <= m <= 15
  {
    if w <= 3 then 3 else if w <= 7 then 7 else 15
  }

  lemma InitialDigit(w: nat, k: nat)
    requires 1 <= w <= 15 && 1 <= k <= MaxWidth(w)
    ensures Digit(Initial(w), k) == MaxWidth(w) - k
  {
  }

  lemma FullDigit(w: nat, k: nat)
    requires 1 <= w <= 15 && k <= MaxWidth(w)
    ensures Digit(Full(w), k) == if k == 0 then 0 else k - 1
  {
  }

  function MakeEmpty(w: nat): bv64
    requires 1 <= w <= 15
  {
    NoSize(Down(Initial(w), MaxWidth(w) - w))
  }

  function NoSize(x: bv64): bv64 {
    And(x, Not(15))
  }

  lemma MakeEmptyDigit(w: nat, k: nat)
    requires 1 <= w <= 15 && k <= w
    ensures Digit(MakeEmpty(w), k) == if k == 0 then 0 else w - k
  {
    hide Digit, Initial, Down, Bits, MaxWidth, NoSize;
    NoSizeDigit(Down(Initial(w), MaxWidth(w) - w), k);
    if k > 0 {
      DigitDown(Initial(w), MaxWidth(w) - w, k);
      InitialDigit(w, k + MaxWidth(w) - w);
    }
  }

  lemma Fifteen(k: nat)
    requires k < 16
    ensures Digit(15, k) == if k == 0 then 15 else 0
  {
    hide Digit;
    DigitSmall(15, k);
  }

  lemma NoSizeDigit(x: bv64, k: nat)
    requires k < 16
    ensures Digit(NoSize(x), k) == if k == 0 then 0 else Digit(x, k)
  {
    Fifteen(k);
    hide Digit, And, Not;
    DigitNot(15, k);
    DigitAnd(x, Not(15), k);
  }

  /** `make_sorted`; its `mask` is all ones for n == W. */
  function MakeSortedWord(w: nat, n: nat): bv64
    requires 1 <= w <= 15 && n <= w
  {
    var mask := if n == w then 0xFFFF_FFFF_FFFF_FFFF else Low(n);
    Cut(w, Or(Or(Up(MakeEmpty(w), n), And(Full(w), mask)), Bits(n)))
  }

  lemma MaskDigit(k: nat)
    requires k < 16
    ensures Digit(0xFFFF_FFFF_FFFF_FFFF, k) == 15
  {
  }

  lemma MakeSortedDigit(w: nat, n: nat, k: nat)
    requires 1 <= w <= 15 && n <= w && k <= w
    ensures Digit(MakeSortedWord(w, n), k) == if k == 0 then n else MakeSorted(w, n)[k - 1]
  {
    hide Digit, Bits, Up, Low, And, Or, MakeEmpty, Full, Cut, MaxWidth;
    var mask := if n == w then 0xFFFF_FFFF_FFFF_FFFF else Low(n);
    var a, b := Up(MakeEmpty(w), n), And(Full(w), mask);
    MaskDigit(k);
    DigitLow(n, k);
    DigitUp(MakeEmpty(w), n, k);
    if k >= n { MakeEmptyDigit(w, k - n); }
    FullDigit(w, k);
    DigitAnd(Full(w), mask, k);
    DigitSmall(n, k);
    DigitOr(a, b, k);
    DigitOr(Or(a, b), Bits(n), k);
    CutDigit(w, Or(Or(a, b), Bits(n)), k);
  }

  lemma CutTwice(w: nat, x: bv64)
    ensures Cut(w, Cut(w, x)) == Cut(w, x)
  {
  }

  /** The elements that a word holds, those in use first. */
  function Elements(w: nat, x: bv64): (s: seq<nat>)
    requires w <= 15
    ensures |s| == w
  {
    seq(w, i requires 0 <= i < w => Digit(x, i + 1))
  }

  lemma SameElements(w: nat, x: bv64, s: seq<nat>)
    requires |s| == w <= 15 && forall k :: 1 <= k <= w ==> Digit(x, k) == s[k - 1]
    ensures Elements(w, x) == s
  {
    hide Digit;
    forall i | 0 <= i < w ensures Elements(w, x)[i] == s[i] {
      assert Digit(x, i + 1) == s[i + 1 - 1];
    }
  }

  // ----- the operations on the word -----

  function InsertedWord(x: bv64, value: nat, i: nat): bv64
    requires value < 16 && i < 15
  {
    Or(Or(And(Next(x), Low(i)), Up(Bits(value), i + 1)), And(Up(x, 1), Not(Low(i + 1))))
  }

  lemma InsertedDigit(x: bv64, value: nat, i: nat, k: nat)
    requires value < 16 && i < 15 && k < 16 && Digit(x, 0) < 15
    ensures Digit(InsertedWord(x, value, i), k)
      == if k == 0 then Digit(x, 0) + 1 else if k <= i then Digit(x, k) else if k == i + 1 then value
        else Digit(x, k - 1)
  {
    hide Digit, Bits, Up, Low, And, Or, Not, Next;
    var a, b, c := And(Next(x), Low(i)), Up(Bits(value), i + 1), And(Up(x, 1), Not(Low(i + 1)));
    DigitLow(i, k);
    DigitStep(x, k);
    DigitAnd(Next(x), Low(i), k);
    DigitUp(Bits(value), i + 1, k);
    if k >= i + 1 { DigitSmall(value, k - (i + 1)); }
    DigitLow(i + 1, k);
    DigitNot(Low(i + 1), k);
    DigitUp(x, 1, k);
    DigitAnd(Up(x, 1), Not(Low(i + 1)), k);
    DigitOr(a, b, k);
    DigitOr(Or(a, b), c, k);
  }

  function SelectedWord(x: bv64, value: nat, di: nat, si: nat): bv64
    requires value < 16 && di < 15 && si < 15
  {
    var mask := Low(si + 1);
    Or(Or(Or(And(Next(x), Low(di)), Up(Bits(value), di + 1)), And(And(Up(x, 1), mask), Not(Low(di + 1)))),
        And(x, Not(mask)))
  }

  lemma SelectedDigit(x: bv64, value: nat, di: nat, si: nat, k: nat)
    requires value < 16 && di <= si < 15 && k < 16 && Digit(x, 0) < 15
    ensures Digit(SelectedWord(x, value, di, si), k)
      == if k == 0 then Digit(x, 0) + 1 else if k <= di || si + 1 < k then Digit(x, k)
         else if k == di + 1 then value else Digit(x, k - 1)
  {
    hide Digit, Bits, Up, Low, And, Or, Not, Next;
    var mask := Low(si + 1);
    var a, b := And(Next(x), Low(di)), Up(Bits(value), di + 1);
    var c, d := And(And(Up(x, 1), mask), Not(Low(di + 1))), And(x, Not(mask));
    DigitLow(di, k);
    DigitStep(x, k);
    DigitAnd(Next(x), Low(di), k);
    DigitUp(Bits(value), di + 1, k);
    if k >= di + 1 { DigitSmall(value, k - (di + 1)); }
    DigitLow(si + 1, k);
    DigitUp(x, 1, k);
    DigitAnd(Up(x, 1), mask, k);
    DigitLow(di + 1, k);
    DigitNot(Low(di + 1), k);
    DigitAnd(And(Up(x, 1), mask), Not(Low(di + 1)), k);
    DigitNot(mask, k);
    DigitAnd(x, Not(mask), k);
    DigitOr(a, b, k);
    DigitOr(Or(a, b), c, k);
    DigitOr(Or(Or(a, b), c), d, k);
  }

  /** When the target lies behind the source, the source keeps the selected element. */
  lemma SelectedStays(x: bv64, di: nat, si: nat)
    requires si < di < 15 && Digit(x, 0) < 15
    ensures Digit(SelectedWord(x, Digit(x, si + 1), di, si), si + 1) == Digit(x, si + 1)
  {
    hide Digit, Bits, Up, Low, And, Or, Not, Next;
    var value, mask, k := Digit(x, si + 1), Low(si + 1), si + 1;
    var a, b := And(Next(x), Low(di)), Up(Bits(value), di + 1);
    var c, d := And(And(Up(x, 1), mask), Not(Low(di + 1))), And(x, Not(mask));
    DigitLow(di, k);
    DigitStep(x, k);
    DigitAnd(Next(x), Low(di), k);
    DigitUp(Bits(value), di + 1, k);
    DigitLow(di + 1, k);
    DigitNot(Low(di + 1), k);
    DigitAnd(And(Up(x, 1), mask), Not(Low(di + 1)), k);
    DigitLow(si + 1, k);
    DigitNot(mask, k);
    DigitAnd(x, Not(mask), k);
    DigitOr(a, b, k);
    DigitOr(Or(a, b), c, k);
    DigitOr(Or(Or(a, b), c), d, k);
  }

  /** `insert_selected` needs its target at or before its source, which its comment leaves open: the
      result is a permutation with the selected element in its place just when that is so. */
  lemma SelectedExactly(w: nat, x: bv64, di: nat, si: nat)
    requires w <= 15 && IsPerm(Elements(w, x), w) && Digit(x, 0) <= si < w && di < w
    ensures var y := Elements(w, SelectedWord(x, Digit(x, si + 1), di, si));
      IsPerm(y, w) && y[di] == Elements(w, x)[si] <==> di <= si
    ensures di <= si ==>
      Elements(w, SelectedWord(x, Digit(x, si + 1), di, si)) == InsertSelected(Elements(w, x), di, si)
  {
    hide Digit, SelectedWord, IsPerm;
    var value, s := Digit(x, si + 1), Elements(w, x);
    var y := SelectedWord(x, value, di, si);
    if di <= si {
      var r := InsertSelected(s, di, si);
      forall k | 1 <= k <= w ensures Digit(y, k) == r[k - 1] { SelectedDigit(x, value, di, si, k); }
      SameElements(w, y, r);
      InsertSelectedPerm(s, w, di, si);
    } else {
      SelectedStays(x, di, si);
      assert Elements(w, y)[si] == value == s[si];
      if Elements(w, y)[di] == s[si] { Twice(Elements(w, y), w, si, di); }
    }
  }

  lemma Twice(s: seq<nat>, w: nat, i: nat, j: nat)
    requires |s| == w && i < j < w && s[i] == s[j]
    ensures !IsPerm(s, w)
  {
  }

  /** `rot_mask` of `remove`. */
  function RotMask(i: nat, rot: nat): bv64
    requires i + 1 + rot < 16
  {
    Up(Low(rot), i + 1)
  }

  lemma RotMaskDigit(i: nat, rot: nat, k: nat)
    requires i + 1 + rot < 16 && k < 16
    ensures Digit(RotMask(i, rot), k) == if i < k <= i + 1 + rot then 15 else 0
  {
    hide Digit, Up, Low;
    DigitUp(Low(rot), i + 1, k);
    if k > i { DigitLow(rot, k - (i + 1)); }
  }

  function RemovedWord(x: bv64, i: nat, rot: nat): bv64
    requires i + 1 + rot < 16
  {
    var mask := RotMask(i, rot);
    Or(Or(And(Prev(x), Not(mask)), And(Down(And(x, mask), 1), mask)), And(Up(And(x, mask), rot), mask))
  }

  lemma MaskedDigit(x: bv64, i: nat, rot: nat, k: nat)
    requires i + 1 + rot < 16 && k < 16
    ensures Digit(And(x, RotMask(i, rot)), k) == if i < k <= i + 1 + rot then Digit(x, k) else 0
  {
    hide Digit, And, RotMask;
    RotMaskDigit(i, rot, k);
    DigitAnd(x, RotMask(i, rot), k);
  }

  lemma RemovedDigit(x: bv64, i: nat, rot: nat, k: nat)
    requires 0 < rot && i + 1 + rot < 16 && k < 16 && 0 < Digit(x, 0)
    ensures Digit(RemovedWord(x, i, rot), k)
      == if k == 0 then Digit(x, 0) - 1 else if k <= i || i + 1 + rot < k then Digit(x, k)
         else if k == i + 1 + rot then Digit(x, i + 1) else Digit(x, k + 1)
  {
    hide Digit, Up, Down, And, Or, Not, Prev, RotMask;
    var mask := RotMask(i, rot);
    var m := And(x, mask);
    var a, b, c := And(Prev(x), Not(mask)), And(Down(m, 1), mask), And(Up(m, rot), mask);
    DigitStep(x, k);
    RotMaskDigit(i, rot, k);
    DigitNot(mask, k);
    DigitAnd(Prev(x), Not(mask), k);
    DigitDown(m, 1, k);
    if k < 15 { MaskedDigit(x, i, rot, k + 1); }
    DigitAnd(Down(m, 1), mask, k);
    DigitUp(m, rot, k);
    if k >= rot { MaskedDigit(x, i, rot, k - rot); }
    DigitAnd(Up(m, rot), mask, k);
    DigitOr(a, b, k);
    DigitOr(Or(a, b), c, k);
  }

  /** Without the unused slots. */
  function Used(w: nat, x: bv64): bv64
    requires w < 16
  {
    And(x, Low(w))
  }

  lemma UsedDigit(w: nat, x: bv64, k: nat)
    requires w < 16 && k < 16
    ensures Digit(Used(w, x), k) == if k <= w then Digit(x, k) else 0
  {
    hide Digit, And, Low;
    DigitLow(w, k);
    DigitAnd(x, Low(w), k);
  }

  function ToBackWord(w: nat, x: bv64, i: nat): bv64
    requires i < w < 16
  {
    var mask := Not(Low(i));
    var z := Used(w, x);
    Or(Or(And(Prev(z), Not(mask)), And(Down(z, 1), mask)), Up(And(z, mask), w - i - 1))
  }

  lemma ToBackDigit(w: nat, x: bv64, i: nat, k: nat)
    requires i < w < 16 && k <= w && 0 < Digit(x, 0)
    ensures Digit(ToBackWord(w, x, i), k)
      == if k == 0 then Digit(x, 0) - 1 else if k <= i then Digit(x, k) else if k == w then Digit(x, i + 1)
        else Digit(x, k + 1)
  {
    hide Digit, Up, Down, Low, And, Or, Not, Prev, Used;
    var mask, z, d := Not(Low(i)), Used(w, x), w - i - 1;
    var a, b, c := And(Prev(z), Not(mask)), And(Down(z, 1), mask), Up(And(z, mask), d);
    DigitLow(i, k);
    DigitNot(Low(i), k);
    DigitNot(mask, k);
    DigitStep(z, k);
    UsedDigit(w, x, 0);
    UsedDigit(w, x, k);
    DigitAnd(Prev(z), Not(mask), k);
    DigitDown(z, 1, k);
    if k < 15 { UsedDigit(w, x, k + 1); }
    DigitAnd(Down(z, 1), mask, k);
    DigitUp(And(z, mask), d, k);
    if k >= d {
      DigitLow(i, k - d);
      DigitNot(Low(i), k - d);
      DigitAnd(z, mask, k - d);
      UsedDigit(w, x, k - d);
    }
    DigitOr(a, b, k);
    DigitOr(Or(a, b), c, k);
  }

  function RotateMask(w: nat, i: nat): bv64
    requires i <= w < 16
  {
    if i == w then 0xFFFF_FFFF_FFFF_FFFF else Low(i)
  }

  lemma RotateMaskDigit(w: nat, i: nat, k: nat)
    requires i <= w < 16 && k < 16
    ensures Digit(RotateMask(w, i), k) == if k <= i || i == w then 15 else 0
    ensures Digit(Not(RotateMask(w, i)), k) == if k <= i || i == w then 0 else 15
  {
    hide Digit, Low, Not;
    MaskDigit(k);
    DigitLow(i, k);
    DigitNot(RotateMask(w, i), k);
  }

  function RotatedWord(w: nat, x: bv64, i: nat, j: nat): bv64
    requires i <= j <= w < 16
  {
    var mask := RotateMask(w, i);
    var z := Used(w, x);
    Or(Or(And(z, mask), And(Down(z, j - i), Not(mask))), Up(And(z, Not(mask)), w - j))
  }

  lemma RotatedDigit(w: nat, x: bv64, i: nat, j: nat, k: nat)
    requires i <= j <= w < 16 && k <= w
    ensures Digit(RotatedWord(w, x, i, j), k)
      == if k <= i then Digit(x, k) else if k <= w - (j - i) then Digit(x, k + (j - i)) else Digit(x, k - (w - j))
  {
    hide Digit, Up, Down, And, Or, Not, Used, RotateMask;
    var mask, z := RotateMask(w, i), Used(w, x);
    var a, b, c := And(z, mask), And(Down(z, j - i), Not(mask)), Up(And(z, Not(mask)), w - j);
    RotateMaskDigit(w, i, k);
    UsedDigit(w, x, k);
    DigitAnd(z, mask, k);
    DigitDown(z, j - i, k);
    if k + (j - i) < 16 { UsedDigit(w, x, k + (j - i)); }
    DigitAnd(Down(z, j - i), Not(mask), k);
    DigitUp(And(z, Not(mask)), w - j, k);
    if k >= w - j {
      RotateMaskDigit(w, i, k - (w - j));
      UsedDigit(w, x, k - (w - j));
      DigitAnd(z, Not(mask), k - (w - j));
    }
    DigitOr(a, b, k);
    DigitOr(Or(a, b), c, k);
  }

  lemma SelectedSize(x: bv64, value: nat, di: nat, si: nat)
    requires value < 16 && di < 15 && si < 15 && Digit(x, 0) < 15
    ensures Digit(SelectedWord(x, value, di, si), 0) == Digit(x, 0) + 1
  {
    hide Digit, Bits, Up, Low, And, Or, Not, Next;
    var mask := Low(si + 1);
    var a, b := And(Next(x), Low(di)), Up(Bits(value), di + 1);
    var c, d := And(And(Up(x, 1), mask), Not(Low(di + 1))), And(x, Not(mask));
    DigitLow(di, 0);
    DigitStep(x, 0);
    DigitAnd(Next(x), Low(di), 0);
    DigitUp(Bits(value), di + 1, 0);
    DigitLow(di + 1, 0);
    DigitNot(Low(di + 1), 0);
    DigitAnd(And(Up(x, 1), mask), Not(Low(di + 1)), 0);
    DigitLow(si + 1, 0);
    DigitNot(mask, 0);
    DigitAnd(x, Not(mask), 0);
    DigitOr(a, b, 0);
    DigitOr(Or(a, b), c, 0);
    DigitOr(Or(Or(a, b), c), d, 0);
  }

  lemma CutElements(w: nat, y: bv64)
    requires w <= 15
    ensures Digit(Cut(w, y), 0) == Digit(y, 0) && Elements(w, Cut(w, y)) == Elements(w, y)
  {
    hide Digit, Cut;
    forall k | 0 <= k <= w ensures Digit(Cut(w, y), k) == Digit(y, k) { CutDigit(w, y, k); }
    SameElements(w, Cut(w, y), Elements(w, y));
  }

  class KPermuter {
    const w: nat
    var x: bv64

    ghost predicate Valid()
      reads this
    {
      1 <= w <= 15 && x == Cut(w, x) && Size() <= w && IsPerm(List(), w)
    }

    function Size(): nat
      reads this
    {
      Digit(x, 0)
    }

    function At(i: nat): nat
      requires i < w <= 15
      reads this
    {
      Digit(x, i + 1)
    }

    ghost function List(): (s: seq<nat>)
      requires w <= 15
      reads this
      ensures |s| == w && forall i :: 0 <= i < w ==> s[i] == At(i)
    {
      Elements(w, x)
    }

    /** The new word holds `n` and then `s`. */
    ghost predicate Holds(y: bv64, n: nat, s: seq<nat>)
      requires w <= 15
    {
      && |s| == w && Digit(y, 0) == n <= w && IsPerm(s, w)
      && forall k :: 1 <= k <= w ==> Digit(y, k) == s[k - 1]
    }

    method Assign(y: bv64, ghost n: nat, ghost s: seq<nat>)
      requires 1 <= w <= 15 && Holds(y, n, s)
      modifies this
      ensures Valid() && Size() == n && List() == s
    {
      hide Digit, Cut;
      x := Cut(w, y);
      CutTwice(w, y);
      forall k | 0 <= k <= w ensures Digit(x, k) == Digit(y, k) { CutDigit(w, y, k); }
      SameElements(w, x, s);
    }

    /** `make_sorted`, and `make_empty` for n = 0. */
    constructor (w: nat, n: nat)
      requires 1 <= w <= 15 && n <= w
      ensures Valid() && this.w == w && Size() == n && List() == MakeSorted(w, n)
    {
      hide Digit, MakeSortedWord;
      this.w := w;
      x := MakeSortedWord(w, n);
      new;
      forall k | 0 <= k <= w ensures Digit(x, k) == if k == 0 then n else MakeSorted(w, n)[k - 1] {
        MakeSortedDigit(w, n, k);
      }
      MakeSortedPerm(w, n);
      Assign(x, n, MakeSorted(w, n));
    }

    method InsertFromBack(i: nat) returns (value: nat)
      requires Valid() && i < w && Size() < w
      modifies this
      ensures Valid() && Size() == old(Size()) + 1 && value == old(List()[w - 1])
      ensures List() == PermList.InsertFromBack(old(List()), i)
    {
      hide Digit, IsPerm, Cut, InsertedWord;
      value := At(w - 1);
      ghost var s := PermList.InsertFromBack(List(), i);
      forall k | 0 <= k <= w ensures Digit(InsertedWord(x, value, i), k) == if k == 0 then Size() + 1 else s[k - 1] {
        InsertedDigit(x, value, i, k);
      }
      InsertFromBackPerm(List(), w, i);
      Assign(InsertedWord(x, value, i), Size() + 1, s);
    }

    method InsertSelected(di: nat, si: nat)
      requires Valid() && di < w && Size() <= si < w
      modifies this
      ensures Size() == old(Size()) + 1 && x == Cut(w, x)
      ensures di <= si ==> Valid() && List() == PermList.InsertSelected(old(List()), di, si)
      ensures Valid() && List()[di] == old(List()[si]) <==> di <= si
    {
      hide Digit, IsPerm, Cut, SelectedWord;
      var value := At(si);
      SelectedExactly(w, x, di, si);
      SelectedSize(x, value, di, si);
      var y := SelectedWord(x, value, di, si);
      CutElements(w, y);
      CutTwice(w, y);
      x := Cut(w, y);
    }

    method Remove(i: nat)
      requires Valid() && i < Size()
      modifies this
      ensures Valid() && Size() == old(Size()) - 1 && List() == RemoveAt(old(List()), old(Size()), i)
    {
      hide Digit, IsPerm, Cut, RemovedWord, Prev;
      var n := Size();
      ghost var s := RemoveAt(List(), n, i);
      RemoveAtPerm(List(), w, n, i);
      if n == i + 1 {
        forall k | 0 <= k <= w ensures Digit(Prev(x), k) == if k == 0 then n - 1 else s[k - 1] { DigitStep(x, k); }
        Assign(Prev(x), n - 1, s);
      } else {
        var rot := n - i - 1;
        forall k | 0 <= k <= w ensures Digit(RemovedWord(x, i, rot), k) == if k == 0 then n - 1 else s[k - 1] {
          RemovedDigit(x, i, rot, k);
        }
        Assign(RemovedWord(x, i, rot), n - 1, s);
      }
    }

    method RemoveToBack(i: nat)
      requires Valid() && i < Size()
      modifies this
      ensures Valid() && Size() == old(Size()) - 1 && List() == PermList.RemoveToBack(old(List()), i)
    {
      hide Digit, IsPerm, Cut, ToBackWord;
      ghost var s := PermList.RemoveToBack(List(), i);
      forall k | 0 <= k <= w ensures Digit(ToBackWord(w, x, i), k) == if k == 0 then Size() - 1 else s[k - 1] {
        ToBackDigit(w, x, i, k);
      }
      RemoveToBackPerm(List(), w, i);
      Assign(ToBackWord(w, x, i), Size() - 1, s);
    }

    method Rotate(i: nat, j: nat)
      requires Valid() && i <= j <= Size()
      modifies this
      ensures Valid() && Size() == old(Size()) && List() == PermList.Rotate(old(List()), i, j)
    {
      hide Digit, IsPerm, Cut, RotatedWord;
      ghost var s := PermList.Rotate(List(), i, j);
      forall k | 0 <= k <= w ensures Digit(RotatedWord(w, x, i, j), k) == if k == 0 then Size() else s[k - 1] {
        RotatedDigit(w, x, i, j, k);
      }
      RotatePerm(List(), w, i, j);
      Assign(RotatedWord(w, x, i, j), Size(), s);
    }

    method Exchange(i: nat, j: nat)
      requires Valid() && i < w && j < w
      modifies this
      ensures Valid() && Size() == old(Size()) && List() == PermList.Exchange(old(List()), i, j)
    {
      hide Digit, Up, Down, And, Or, Xor, XorDigit, IsPerm, Cut;
      var diff := And(Xor(Down(x, i), Down(x, j)), 240);
      var e := Or(Up(diff, i), Up(diff, j));
      var y := Xor(x, e);
      ghost var s := PermList.Exchange(List(), i, j);
      ghost var v, u := At(i), At(j);
      forall k | 0 <= k <= 15 ensures Digit(diff, k) == if k == 1 then XorDigit(v, u) else 0 {
        Digit240(k);
        DigitAnd(Xor(Down(x, i), Down(x, j)), 240, k);
        DigitXor(Down(x, i), Down(x, j), k);
        DigitDown(x, i, k);
        DigitDown(x, j, k);
      }
      XorLaws(v, u);
      XorLaws(u, v);
      forall k | 0 <= k <= w ensures Digit(y, k) == if k == 0 then Size() else s[k - 1] {
        DigitUp(diff, i, k);
        DigitUp(diff, j, k);
        DigitOr(Up(diff, i), Up(diff, j), k);
        SameOr(Up(diff, i));
        DigitXor(x, e, k);
        XorLaws(Digit(x, k), 0);
      }
      ExchangePerm(List(), w, i, j);
      Assign(y, Size(), s);
    }

    method ExchangeValues(a: nat, b: nat)
      requires Valid() && a < w && b < w
      modifies this
      ensures Valid() && Size() == old(Size()) && List() == PermList.ExchangeValues(old(List()), a, b)
    {
      hide Digit, Up, Down, Xor, XorDigit, IsPerm, Cut, Bits, Flip, Flipped, StepWord;
      var diff, p: bv64 := 0, x;
      FlipNone(w, a, b, x);
      for i := 0 to w
        modifies {}
        invariant Flipped(w, a, b, x, i, p, diff)
      {
        var v := Digit(p, w);
        FlipOne(w, a, b, x, i, p, diff);
        diff := Xor(diff, StepWord(a, b, v));
        diff, p := Up(diff, 1), Up(p, 1);
      }
      var y := Xor(x, diff);
      ghost var s := PermList.ExchangeValues(List(), a, b);
      forall k | 0 <= k <= w ensures Digit(y, k) == if k == 0 then Size() else s[k - 1] {
        FlipAll(w, a, b, x, p, diff, k);
      }
      ExchangeValuesPerm(List(), w, a, b);
      Assign(y, Size(), s);
    }
  }

  lemma Digit240(k: nat)
    requires k < 16
    ensures Digit(240, k) == if k == 1 then 15 else 0
  {
  }

  lemma NoDigits()
    ensures forall k :: 0 <= k < 16 ==> Digit(0, k) == 0
  {
    forall k | 0 <= k < 16 ensures Digit(0, k) == 0 { DigitSmall(0, k); }
  }

  lemma SameOr(x: bv64)
    ensures Or(x, x) == x
  {
  }

  /** What `exchange_values` flips in an element. */
  ghost function Flip(a: nat, b: nat, v: nat): nat
    requires a < 16 && b < 16
  {
    if v == a || v == b then XorDigit(a, b) else 0
  }

  /** In the loop of `exchange_values`, after `i` turns. */
  ghost predicate Flipped(w: nat, a: nat, b: nat, x: bv64, i: nat, p: bv64, diff: bv64)
    requires i <= w <= 15 && a < 16 && b < 16
  {
    && Digit(diff, 0) == 0
    && (forall m {:trigger Digit(p, m)} :: i <= m <= 15 ==> Digit(p, m) == Digit(x, m - i))
    && (forall m {:trigger Digit(diff, m)} :: 1 <= m <= i ==> Digit(diff, m) == Flip(a, b, Digit(x, w - i + m)))
  }

  lemma FlipNone(w: nat, a: nat, b: nat, x: bv64)
    requires w <= 15 && a < 16 && b < 16
    ensures Flipped(w, a, b, x, 0, x, 0)
  {
    hide Digit;
    NoDigits();
  }

  lemma FlipDigit(a: nat, b: nat, v: nat, diff: bv64, m: nat)
    requires a < 16 && b < 16 && m < 16 && Digit(diff, 0) == 0
    ensures Digit(Up(Xor(diff, StepWord(a, b, v)), 1), m)
      == if m == 0 then 0 else if m == 1 then Flip(a, b, v) else Digit(diff, m - 1)
  {
    hide Digit, Up, Xor, XorDigit, Flip, StepWord;
    DigitUp(Xor(diff, StepWord(a, b, v)), 1, m);
    if m > 0 {
      var k := m - 1;
      StepDigit(a, b, v, k);
      DigitXor(diff, StepWord(a, b, v), k);
      XorLaws(Digit(diff, k), 0);
      XorLaws(Digit(StepWord(a, b, v), k), 0);
    }
  }

  lemma FlippedAt(w: nat, a: nat, b: nat, x: bv64, i: nat, p: bv64, diff: bv64, m: nat)
    requires i <= w <= 15 && a < 16 && b < 16 && Flipped(w, a, b, x, i, p, diff)
    ensures Digit(diff, 0) == 0 && (i <= m <= 15 ==> Digit(p, m) == Digit(x, m - i))
    ensures 1 <= m <= i ==> Digit(diff, m) == Flip(a, b, Digit(x, w - i + m))
  {
    hide Digit, Flip;
  }

  lemma FlipOneDigit(w: nat, a: nat, b: nat, x: bv64, i: nat, p: bv64, diff: bv64, m: nat)
    requires i < w <= 15 && a < 16 && b < 16 && Flipped(w, a, b, x, i, p, diff) && m <= 15
    ensures i + 1 <= m ==> Digit(Up(p, 1), m) == Digit(x, m - (i + 1))
    ensures var e := Up(Xor(diff, StepWord(a, b, Digit(p, w))), 1);
      && (m == 0 ==> Digit(e, m) == 0)
      && (1 <= m <= i + 1 ==> Digit(e, m) == Flip(a, b, Digit(x, w - (i + 1) + m)))
  {
    hide Digit, Up, Xor, Flip, StepWord, Flipped;
    if m > 0 { FlippedAt(w, a, b, x, i, p, diff, m - 1); }
    FlippedAt(w, a, b, x, i, p, diff, w);
    DigitUp(p, 1, m);
    FlipDigit(a, b, Digit(p, w), diff, m);
  }

  lemma FlipOne(w: nat, a: nat, b: nat, x: bv64, i: nat, p: bv64, diff: bv64)
    requires i < w <= 15 && a < 16 && b < 16 && Flipped(w, a, b, x, i, p, diff)
    ensures Flipped(w, a, b, x, i + 1, Up(p, 1), Up(Xor(diff, StepWord(a, b, Digit(p, w))), 1))
  {
    hide Digit, Up, Xor, Flip, StepWord;
    forall m | 0 <= m <= 15
      ensures i + 1 <= m ==> Digit(Up(p, 1), m) == Digit(x, m - (i + 1))
      ensures var e := Up(Xor(diff, StepWord(a, b, Digit(p, w))), 1);
        && (m == 0 ==> Digit(e, m) == 0)
        && (1 <= m <= i + 1 ==> Digit(e, m) == Flip(a, b, Digit(x, w - (i + 1) + m)))
    {
      FlipOneDigit(w, a, b, x, i, p, diff, m);
    }
  }

  lemma FlipAll(w: nat, a: nat, b: nat, x: bv64, p: bv64, diff: bv64, k: nat)
    requires k <= w <= 15 && a < 16 && b < 16 && Flipped(w, a, b, x, w, p, diff)
    ensures var v := Digit(x, k);
      Digit(Xor(x, diff), k) == if k == 0 then v else if v == a then b else if v == b then a else v
  {
    hide Digit, Xor, XorDigit;
    DigitXor(x, diff, k);
    XorLaws(Digit(x, k), 0);
    XorLaws(a, b);
    XorLaws(b, a);
  }

  /** `-((v == x) | (v == y)) & (x ^ y)` */
  function StepWord(a: nat, b: nat, v: nat): bv64
    requires a < 16 && b < 16
  {
    if v == a || v == b then Xor(Bits(a), Bits(b)) else 0
  }

  lemma StepDigit(a: nat, b: nat, v: nat, k: nat)
    requires a < 16 && b < 16 && k < 16
    ensures Digit(StepWord(a, b, v), k) == if k == 0 then Flip(a, b, v) else 0
  {
    hide Digit, Bits, Xor, XorDigit;
    NoDigits();
    DigitXor(Bits(a), Bits(b), k);
    DigitSmall(a, k);
    DigitSmall(b, k);
    XorLaws(0, 0);
  }
}
