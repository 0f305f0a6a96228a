/** The version word of a node (nodeversion.hh), 32-bit layout: a lock bit, two dirty bits, a counter
    of 25 bits whose lowest six count inserts and whose other 19 count splits, an unused bit that
    takes the carry, and the bits deleted, root and leaf. Masks and sums are written as arithmetic on
    the word. */
module NodeVersion {
  const LOCK: nat := 0x1
  const INSERTING: nat := 0x2
  const SPLITTING: nat := 0x4
  const VINSERT: nat := 0x8
  const VSPLIT: nat := 0x200
  const UNUSED: nat := 0x1000_0000
  const DELETED: nat := 0x2000_0000
  const ROOT: nat := 0x4000_0000
  const LEAF: nat := 0x8000_0000
  const WORD: nat := 0x1_0000_0000
  /** The counter is taken modulo this. */
  const COUNTS: nat := 0x200_0000
  /** Inserts between two splits that do not carry. */
  const INSERTS: nat := 0x40
  /** Fewer changing unlocks than this are never missed. */
  const SAFE: nat := 0x8_0000

  // ----- the fields of a word -----

  datatype Fields = Fields(locked: bool, inserting: bool, splitting: bool, count: nat, deleted: bool, root: bool,
      leaf: bool)

  predicate Unused(v: nat) {
    v / UNUSED % 2 == 1
  }

  function Parse(v: nat): (f: Fields)
    ensures f.count < COUNTS
  {
    Fields(v % 2 == 1, v / INSERTING % 2 == 1, v / SPLITTING % 2 == 1, v / VINSERT % COUNTS,
           v / DELETED % 2 == 1, v / ROOT % 2 == 1, v / LEAF % 2 == 1)
  }

  function Value(b: bool): nat {
    if b then 1 else 0
  }

  function Word(f: Fields): nat {
    LOCK * Value(f.locked) + INSERTING * Value(f.inserting) + SPLITTING * Value(f.splitting) + VINSERT * f.count
    + DELETED * Value(f.deleted) + ROOT * Value(f.root) + LEAF * Value(f.leaf)
  }

  function Flags(f: Fields): nat {
    Value(f.deleted) + 2 * Value(f.root) + 4 * Value(f.leaf)
  }

  predicate IsWord(v: nat) {
    v < WORD && !Unused(v)
  }

  lemma LowBits(v: nat)
    ensures v == v % 2 + 2 * (v / 2 % 2) + 4 * (v / 4 % 2) + VINSERT * (v / VINSERT)
  {
    assert v / 4 == (v / 8) * 2 + v / 4 % 2;
    assert v / 2 == (v / 4) * 2 + v / 2 % 2;
  }

  lemma HighBits(v: nat)
    requires IsWord(v)
    ensures v / VINSERT == v / VINSERT % COUNTS + COUNTS * (v / UNUSED)
    ensures v / UNUSED == 2 * (v / DELETED % 2) + 4 * (v / ROOT % 2) + 8 * (v / LEAF % 2)
  {
    assert v / UNUSED == (v / DELETED) * 2;
    assert v / DELETED == (v / ROOT) * 2 + (v / DELETED) % 2;
    assert v / ROOT == (v / LEAF) * 2 + (v / ROOT) % 2;
  }

  lemma ParseValues(v: nat)
    requires IsWord(v)
    ensures var f := Parse(v);
      && Value(f.locked) == v % 2 && Value(f.inserting) == v / 2 % 2 && Value(f.splitting) == v / 4 % 2
      && f.count == v / VINSERT % COUNTS
      && Value(f.deleted) == v / DELETED % 2 && Value(f.root) == v / ROOT % 2 && Value(f.leaf) == v / LEAF % 2
  {
    LeafBit(v);
  }

  lemma LeafBit(v: nat)
    requires v < WORD
    ensures v / LEAF < 2
  {
  }

  /** A word is its fields. */
  lemma Assembled(v: nat)
    requires IsWord(v)
    ensures v == Word(Parse(v))
  {
    hide Parse, Value;
    ParseValues(v);
    LowBits(v);
    HighBits(v);
    assert Word(Parse(v))
      == v % 2 + 2 * (v / 2 % 2) + 4 * (v / 4 % 2) + VINSERT * (v / VINSERT % COUNTS + COUNTS * (v / UNUSED));
  }

  /** Fields put together can be taken apart; `low` is anything below the counter. */
  lemma Apart(f: Fields, v: nat)
    requires f.count < COUNTS && v == Word(f)
    ensures IsWord(v) && Parse(v) == f
    ensures v / VSPLIT == f.count / INSERTS + SAFE * (2 * Flags(f))
    ensures v / 2 == Value(f.inserting) + 2 * Value(f.splitting) + 4 * f.count
                     + 4 * COUNTS * (2 * Flags(f))
  {
    LowApart(f, v);
    hide Word;
    HighApart(f, v);
  }

  lemma LowApart(f: Fields, v: nat)
    requires f.count < COUNTS && v == Word(f)
    ensures v / 2 == Value(f.inserting) + 2 * Value(f.splitting) + 4 * f.count + 4 * COUNTS * (2 * Flags(f))
    ensures v / 4 == Value(f.splitting) + 2 * f.count + 2 * COUNTS * (2 * Flags(f))
    ensures v / VINSERT == f.count + COUNTS * (2 * Flags(f))
    ensures v / VSPLIT == f.count / INSERTS + SAFE * (2 * Flags(f))
    ensures v % 2 == Value(f.locked) && v / 2 % 2 == Value(f.inserting) && v / 4 % 2 == Value(f.splitting)
  {
    hide Flags;
    WordFlags(f);
    var top := Flags(f);
    assert v / 2 == Value(f.inserting) + 2 * Value(f.splitting) + 4 * f.count + 4 * COUNTS * (2 * top);
    assert v / 4 == Value(f.splitting) + 2 * f.count + 2 * COUNTS * (2 * top);
    assert v / VINSERT == f.count + COUNTS * (2 * top);
  }

  lemma WordFlags(f: Fields)
    ensures Word(f) == Value(f.locked) + 2 * Value(f.inserting) + 4 * Value(f.splitting)
      + VINSERT * (f.count + COUNTS * (2 * Flags(f)))
  {
  }

  lemma HighApart(f: Fields, v: nat)
    requires f.count < COUNTS && v / VINSERT == f.count + COUNTS * (2 * Flags(f))
    ensures v < WORD && v / VINSERT % COUNTS == f.count && v / UNUSED == 2 * Flags(f)
    ensures v / DELETED % 2 == Value(f.deleted)
    ensures v / ROOT % 2 == Value(f.root) && v / LEAF % 2 == Value(f.leaf)
  {
    assert v / UNUSED == 2 * Flags(f);
    assert v / DELETED == Flags(f);
    assert v / ROOT == Value(f.root) + 2 * Value(f.leaf);
    assert v / LEAF == Value(f.leaf);
  }

  // ----- the operations on the word -----

  /** `v & ~bit` for the unused bit and the root bit. */
  function WithoutUnused(v: nat): nat {
    if Unused(v) then v - UNUSED else v
  }

  function WithoutRoot(v: nat): nat {
    if v / ROOT % 2 == 1 then v - ROOT else v
  }

  /** `unlock`. */
  function Unlocked(v: nat): nat {
    if v / SPLITTING % 2 == 1 then
      var s := (v + VSPLIT) % WORD;
      WithoutRoot(WithoutUnused(s - s % VSPLIT))
    else
      var s := (v + v / INSERTING % 2 * INSERTING * 4) % WORD;
      WithoutUnused(s - s % VINSERT)
  }

  /** What `unlock` does to the fields. */
  function UnlockedFields(f: Fields): (g: Fields)
    ensures f.count < COUNTS ==> g.count < COUNTS
  {
    if f.splitting then f.(locked := false, inserting := false, splitting := false, root := false,
                           count := (f.count / INSERTS + 1) * INSERTS % COUNTS)
    else f.(locked := false, inserting := false, count := (f.count + Value(f.inserting)) % COUNTS)
  }

  /** The carry out of the counter goes to the unused bit, which is cleared. */
  lemma CarryDropped(f: Fields, c: nat, v: nat)
    requires f.count < COUNTS && c <= COUNTS && f.count == c % COUNTS && v == Word(f.(count := c))
    ensures WithoutUnused(v) == Word(f)
  {
    var top := Flags(f);
    assert v / UNUSED == Value(c == COUNTS) + 2 * top;
  }

  lemma RootDropped(f: Fields)
    requires f.count < COUNTS
    ensures WithoutRoot(Word(f)) == Word(f.(root := false))
  {
    hide Parse;
    Apart(f, Word(f));
    assert Parse(Word(f)).root == (Word(f) / ROOT % 2 == 1) by { ParseRoot(Word(f)); }
  }

  lemma ParseRoot(v: nat)
    ensures Parse(v).root == (v / ROOT % 2 == 1) && Parse(v).splitting == (v / SPLITTING % 2 == 1)
    ensures v / INSERTING % 2 == Value(Parse(v).inserting)
  {
  }

  lemma UnlockedInsert(f: Fields, v: nat)
    requires f.count < COUNTS && v == Word(f) && !f.splitting
    ensures var s := (v + Value(f.inserting) * INSERTING * 4) % WORD;
      WithoutUnused(s - s % VINSERT) == Word(UnlockedFields(f))
  {
    hide WithoutUnused;
    var s, c := (v + Value(f.inserting) * INSERTING * 4) % WORD, f.count + Value(f.inserting);
    assert s % VINSERT == Value(f.locked) + 2 * Value(f.inserting);
    CarryDropped(UnlockedFields(f), c, s - s % VINSERT);
  }

  lemma UnlockedSplit(f: Fields, v: nat)
    requires f.count < COUNTS && v == Word(f) && f.splitting
    ensures var s := (v + VSPLIT) % WORD; WithoutRoot(WithoutUnused(s - s % VSPLIT)) == Word(UnlockedFields(f))
  {
    hide WithoutUnused, WithoutRoot;
    var s, c := (v + VSPLIT) % WORD, (f.count / INSERTS + 1) * INSERTS;
    var top := Flags(f);
    assert s == v + VSPLIT;
    assert s - s % VSPLIT == VINSERT * c + DELETED * top;
    var g := f.(locked := false, inserting := false, splitting := false, count := c % COUNTS);
    CarryDropped(g, c, s - s % VSPLIT);
    RootDropped(g);
  }

  /** `unlock` on the word does what it should to the fields, and to no other bit. */
  lemma UnlockedParse(v: nat)
    requires IsWord(v)
    ensures IsWord(Unlocked(v)) && Parse(Unlocked(v)) == UnlockedFields(Parse(v))
  {
    hide Parse, Word, UnlockedFields, WithoutUnused, WithoutRoot;
    var f := Parse(v);
    Assembled(v);
    ParseRoot(v);
    Apart(UnlockedFields(f), Word(UnlockedFields(f)));
    if f.splitting { UnlockedSplit(f, v); } else { UnlockedInsert(f, v); }
  }

  /** `v | bit` */
  function With(v: nat, bit: nat): nat
    requires bit > 0
  {
    if v / bit % 2 == 1 then v else v + bit
  }

  // ----- steps -----

  /** What threads do to the word. `mark_change` is one of the first two marks. */
  datatype Step = Lock | MarkInsert | MarkSplit | MarkDeleted | MarkDeletedTree | MarkRoot | MarkNonroot | Unlock

  /** The invariants that the source asserts; locking waits for the lock. */
  predicate Enabled(v: nat, s: Step) {
    match s
    case Lock => v % 2 == 0
    case MarkDeletedTree => v % 2 == 1 && v / ROOT % 2 == 1
    case MarkRoot => true
    case _ => v % 2 == 1
  }

  function Next(v: nat, s: Step): nat {
    match s
    case Lock => With(v, LOCK)
    case MarkInsert => With(v, INSERTING)
    case MarkSplit => With(v, SPLITTING)
    case MarkDeleted => With(With(v, SPLITTING), DELETED)
    case MarkDeletedTree => With(v, DELETED)
    case MarkRoot => With(v, ROOT)
    case MarkNonroot => WithoutRoot(v)
    case Unlock => Unlocked(v)
  }

  function NextFields(f: Fields, s: Step): (g: Fields)
    ensures f.count < COUNTS ==> g.count < COUNTS
  {
    match s
    case Lock => f.(locked := true)
    case MarkInsert => f.(inserting := true)
    case MarkSplit => f.(splitting := true)
    case MarkDeleted => f.(splitting := true, deleted := true)
    case MarkDeletedTree => f.(deleted := true)
    case MarkRoot => f.(root := true)
    case MarkNonroot => f.(root := false)
    case Unlock => UnlockedFields(f)
  }

  lemma WithParse(v: nat)
    requires IsWord(v)
    ensures With(v, LOCK) == Word(Parse(v).(locked := true)) && With(v, INSERTING) == Word(Parse(v).(inserting := true))
    ensures With(v, SPLITTING) == Word(Parse(v).(splitting := true))
    ensures With(v, DELETED) == Word(Parse(v).(deleted := true))
    ensures With(v, ROOT) == Word(Parse(v).(root := true))
  {
    Assembled(v);
  }

  /** Each step on the word is a step on the fields. */
  lemma NextParse(v: nat, s: Step)
    requires IsWord(v)
    ensures IsWord(Next(v, s)) && Parse(Next(v, s)) == NextFields(Parse(v), s)
  {
    hide Parse, Word, Unlocked, UnlockedFields, With, WithoutRoot;
    var f := Parse(v);
    Assembled(v);
    WithParse(v);
    RootDropped(f);
    UnlockedParse(v);
    Apart(NextFields(f, s), Word(NextFields(f, s)));
    if s.MarkDeleted? {
      var g := f.(splitting := true);
      Apart(g, Word(g));
      WithParse(Word(g));
    }
  }

  /** The word as the object that the methods change. */
  class VersionWord {
    var v: nat

    ghost predicate Valid()
      reads this
    {
      IsWord(v)
    }

    ghost function Now(): Fields
      reads this
    {
      Parse(v)
    }

    constructor (isLeaf: bool)
      ensures Valid() && Now() == Fields(false, false, false, 0, false, false, isLeaf)
    {
      v := if isLeaf then LEAF else 0;
      new;
      Apart(Fields(false, false, false, 0, false, false, isLeaf), v);
    }

    method TryLock() returns (ok: bool)
      requires Valid()
      modifies this
      ensures Valid() && ok == !old(Now()).locked && Now() == old(Now()).(locked := true)
    {
      ok := v % 2 == 0;
      Assembled(v);
      if ok {
        NextParse(v, Lock);
        v := With(v, LOCK);
      }
    }

    /** `mark_change`, which is `mark_insert` or `mark_split`. */
    method MarkChange(isSplit: bool)
      requires Valid() && Now().locked
      modifies this
      ensures Valid() && Now() == (if isSplit then old(Now()).(splitting := true) else old(Now()).(inserting := true))
    {
      NextParse(v, if isSplit then MarkSplit else MarkInsert);
      v := With(v, if isSplit then SPLITTING else INSERTING);
    }

    method MarkDeleted()
      requires Valid() && Now().locked
      modifies this
      ensures Valid() && Now() == old(Now()).(deleted := true, splitting := true)
    {
      NextParse(v, Step.MarkDeleted);
      v := With(With(v, SPLITTING), DELETED);
    }

    method Unlock()
      requires Valid() && Now().locked
      modifies this
      ensures Valid() && Now() == UnlockedFields(old(Now()))
    {
      UnlockedParse(v);
      var x := v;
      if x / SPLITTING % 2 == 1 {
        x := (x + VSPLIT) % WORD;
        x := WithoutRoot(WithoutUnused(x - x % VSPLIT));
      } else {
        x := (x + x / INSERTING % 2 * INSERTING * 4) % WORD;
        x := WithoutUnused(x - x % VINSERT);
      }
      v := x;
    }
  }

  // ----- snapshots -----

  /** `x.has_changed(v)`: the words differ in more than the lock bit. */
  predicate HasChanged(x: nat, v: nat) {
    x / 2 != v / 2
  }

  /** `has_split`: they differ from the lowest split bit up. */
  predicate HasSplit(x: nat, v: nat) {
    x / VSPLIT != v / VSPLIT
  }

  predicate SameFlags(f: Fields, g: Fields) {
    f.deleted == g.deleted && f.root == g.root && f.leaf == g.leaf
  }

  lemma FlagsTell(f: Fields, g: Fields)
    ensures Flags(f) == Flags(g) <==> SameFlags(f, g)
  {
  }

  lemma DirtyTell(f: Fields, g: Fields)
    ensures Value(f.inserting) + 2 * Value(f.splitting) < 4
    ensures Value(f.inserting) + 2 * Value(f.splitting) == Value(g.inserting) + 2 * Value(g.splitting)
      <==> f.inserting == g.inserting && f.splitting == g.splitting
  {
  }

  lemma Compared(x: nat, v: nat)
    requires IsWord(x) && IsWord(v)
    ensures var f, g := Parse(x), Parse(v);
      && (HasSplit(x, v) <==> f.count / INSERTS != g.count / INSERTS || !SameFlags(f, g))
      && (HasChanged(x, v) <==>
          f.count != g.count || f.inserting != g.inserting || f.splitting != g.splitting || !SameFlags(f, g))
  {
    var f, g := Parse(x), Parse(v);
    hide Parse, Word, Flags, Value, SameFlags;
    Assembled(x);
    Assembled(v);
    Apart(f, x);
    Apart(g, v);
    FlagsTell(f, g);
    DirtyTell(f, g);
    DirtyTell(g, f);
    var d, e := Value(f.inserting) + 2 * Value(f.splitting), Value(g.inserting) + 2 * Value(g.splitting);
    Positions(f.count / INSERTS, 2 * Flags(f), g.count / INSERTS, 2 * Flags(g));
    Positions4(d, f.count, 2 * Flags(f), e, g.count, 2 * Flags(g));
  }

  lemma Positions(a: nat, t: nat, b: nat, u: nat)
    requires a < SAFE && b < SAFE
    ensures a + SAFE * t == b + SAFE * u <==> a == b && t == u
  {
  }

  lemma Positions4(d: nat, a: nat, t: nat, e: nat, b: nat, u: nat)
    requires d < 4 && e < 4 && a < COUNTS && b < COUNTS
    ensures d + 4 * a + 4 * COUNTS * t == e + 4 * b + 4 * COUNTS * u <==> d == e && a == b && t == u
  {
  }

  // ----- runs -----

  /** Marks are made under the lock. */
  ghost predicate Ok(f: Fields) {
    f.count < COUNTS && (f.inserting || f.splitting ==> f.locked)
  }

  ghost predicate Allowed(v: nat, run: seq<Step>)
    decreases |run|
  {
    run == [] || (Allowed(v, run[..|run| - 1]) && Enabled(After(v, run[..|run| - 1]), run[|run| - 1]))
  }

  ghost function After(v: nat, run: seq<Step>): nat
    decreases |run|
  {
    if run == [] then v else Next(After(v, run[..|run| - 1]), run[|run| - 1])
  }

  /** The changing unlocks of a run, and those that end a split. */
  ghost function Changes(v: nat, run: seq<Step>): nat
    decreases |run|
  {
    if run == [] then 0
    else
      var f := Parse(After(v, run[..|run| - 1]));
      Changes(v, run[..|run| - 1]) + Value(run[|run| - 1].Unlock? && (f.inserting || f.splitting))
  }

  ghost function Splits(v: nat, run: seq<Step>): nat
    decreases |run|
  {
    if run == [] then 0
    else
      var f := Parse(After(v, run[..|run| - 1]));
      Splits(v, run[..|run| - 1]) + Value(run[|run| - 1].Unlock? && f.splitting)
  }

  function Raise(f: Fields, s: Step, t: nat): nat {
    if !s.Unlock? then t else if f.splitting then (t / INSERTS + 1) * INSERTS else t + Value(f.inserting)
  }

  /** The counter without the modulus: each changing unlock raises it by 1 to 64. */
  ghost function Total(v: nat, run: seq<Step>): nat
    decreases |run|
  {
    if run == [] then Parse(v).count
    else Raise(Parse(After(v, run[..|run| - 1])), run[|run| - 1], Total(v, run[..|run| - 1]))
  }

  lemma Lifted(q: nat, a: nat)
    ensures (q * COUNTS + a) % COUNTS == a % COUNTS
  {
  }

  lemma Raised(t: nat, c: nat)
    requires c == t % COUNTS
    ensures (c / INSERTS + 1) * INSERTS % COUNTS == (t / INSERTS + 1) * INSERTS % COUNTS
    ensures (c + 1) % COUNTS == (t + 1) % COUNTS
  {
    var q := t / COUNTS;
    assert t == q * COUNTS + c;
    assert t / INSERTS == q * SAFE + c / INSERTS;
    Lifted(q, (c / INSERTS + 1) * INSERTS);
    Lifted(q, c + 1);
  }

  lemma NextCount(f: Fields, s: Step, t: nat)
    requires f.count == t % COUNTS
    ensures NextFields(f, s).count == Raise(f, s, t) % COUNTS
  {
    Raised(t, f.count);
  }

  lemma {:induction false} TotalIs(v: nat, run: seq<Step>)
    requires IsWord(v) && Ok(Parse(v)) && Allowed(v, run)
    ensures IsWord(After(v, run)) && Ok(Parse(After(v, run))) && Parse(After(v, run)).count == Total(v, run) % COUNTS
    ensures Parse(After(v, run)).leaf == Parse(v).leaf && (Parse(v).deleted ==> Parse(After(v, run)).deleted)
    decreases |run|
  {
    if run != [] {
      var before, s := run[..|run| - 1], run[|run| - 1];
      TotalIs(v, before);
      hide Parse, Next, Raise;
      NextParse(After(v, before), s);
      NextCount(Parse(After(v, before)), s, Total(v, before));
      EnabledLocked(After(v, before), s);
    }
  }

  lemma EnabledLocked(v: nat, s: Step)
    ensures Enabled(v, s) && !s.Lock? && !s.MarkRoot? ==> Parse(v).locked
  {
  }

  /** Each changing unlock raises the counter by 1 to 64, and its split part by at most 1, and by 1 if
      it ends a split. */
  lemma {:induction false} TotalGrows(v: nat, run: seq<Step>)
    ensures var c, t := Parse(v).count, Total(v, run);
      && c + Changes(v, run) <= t <= c + INSERTS * Changes(v, run)
      && c / INSERTS + Splits(v, run) <= t / INSERTS <= c / INSERTS + Changes(v, run)
      && (Splits(v, run) == 0 ==> t == c + Changes(v, run))
    decreases |run|
  {
    if run != [] {
      hide Parse, Next;
      TotalGrows(v, run[..|run| - 1]);
    }
  }

  /** A stable snapshot `x` and fewer than 2^19 changing unlocks: the word differs from the snapshot
      just when there was a change, or one is being made, or the node became deleted, a root or none.
      A split is never missed; without one, `has_split` says so only when inserts carry. */
  lemma ChangesAreSeen(x: nat, run: seq<Step>)
    requires IsWord(x) && Ok(Parse(x)) && !Parse(x).inserting && !Parse(x).splitting && Allowed(x, run)
    requires Changes(x, run) < SAFE
    ensures var v := After(x, run);
      var f, g := Parse(x), Parse(v);
      && (HasChanged(x, v) <==> Changes(x, run) > 0 || g.inserting || g.splitting || !SameFlags(f, g))
      && (Splits(x, run) > 0 ==> HasSplit(x, v))
      && (Splits(x, run) == 0
         ==> (HasSplit(x, v) <==> f.count % INSERTS + Changes(x, run) >= INSERTS || !SameFlags(f, g)))
  {
    hide Parse, After, Total, Changes, Splits, HasChanged, HasSplit, Allowed;
    TotalIs(x, run);
    TotalGrows(x, run);
    Compared(x, After(x, run));
    Distinct(Parse(x).count, Total(x, run), Changes(x, run), Splits(x, run));
  }

  lemma Distinct(c: nat, t: nat, n: nat, s: nat)
    requires c < COUNTS && n < SAFE && c + n <= t <= c + INSERTS * n
    requires c / INSERTS + s <= t / INSERTS <= c / INSERTS + n
    requires s == 0 ==> t == c + n
    ensures n == 0 ==> t % COUNTS == c
    ensures n > 0 ==> t % COUNTS != c
    ensures s > 0 ==> t % COUNTS / INSERTS != c / INSERTS
    ensures s == 0 ==> (t % COUNTS / INSERTS != c / INSERTS <==> c % INSERTS + n >= INSERTS)
  {
    var u := t % COUNTS;
    if t < COUNTS {
      assert u == t;
    } else {
      assert u == t - COUNTS;
      assert u / INSERTS == t / INSERTS - SAFE;
    }
  }

  // ----- the bound is exact -----

  /** A split made of lock, mark and unlock, `n` times over. */
  ghost function SplitRun(n: nat): (run: seq<Step>)
    ensures |run| == 3 * n
  {
    if n == 0 then [] else SplitRun(n - 1) + [Lock, MarkSplit, Unlock]
  }

  /** Nobody is at work on a node that is no root. */
  ghost predicate Quiet(v: nat) {
    var f := Parse(v);
    IsWord(v) && !f.locked && !f.inserting && !f.splitting && !f.root
  }

  lemma OneSplit(v: nat)
    requires Quiet(v)
    ensures var v1 := Next(v, Lock);
      var v2 := Next(v1, MarkSplit);
      var v3 := Next(v2, Unlock);
      && Enabled(v, Lock) && Enabled(v1, MarkSplit) && Enabled(v2, Unlock) && Parse(v2).splitting && Quiet(v3)
      && Parse(v3) == Parse(v).(count := (Parse(v).count / INSERTS + 1) * INSERTS % COUNTS)
  {
    var v1 := Next(v, Lock);
    var v2 := Next(v1, MarkSplit);
    hide Parse, Next, Enabled;
    NextParse(v, Lock);
    NextParse(v1, MarkSplit);
    NextParse(v2, Unlock);
    SplitEnabled(v);
    SplitEnabled(v1);
    SplitEnabled(v2);
  }

  /** The count after `n` splits from count `c`; the first one drops the inserts. */
  function SplitCount(c: nat, n: nat): nat {
    if n == 0 then c else (c - c % INSERTS + INSERTS * n) % COUNTS
  }

  lemma {:induction false} SplitRunCounts(x: nat, n: nat)
    requires Quiet(x)
    ensures Allowed(x, SplitRun(n)) && Changes(x, SplitRun(n)) == n && Quiet(After(x, SplitRun(n)))
    ensures Parse(After(x, SplitRun(n))) == Parse(x).(count := SplitCount(Parse(x).count, n))
  {
    hide Parse, Next, Enabled, Quiet, After, Allowed, Changes, SplitCount;
    if n == 0 {
      EmptyRun(x);
      NoSplit(Parse(x).count);
    } else {
      SplitRunCounts(x, n - 1);
      var run := SplitRun(n - 1);
      OneSplit(After(x, run));
      RunSnoc(x, run, Lock);
      RunSnoc(x, run + [Lock], MarkSplit);
      RunSnoc(x, run + [Lock] + [MarkSplit], Unlock);
      assert SplitRun(n) == run + [Lock] + [MarkSplit] + [Unlock];
      Wraps(Parse(x).count, n);
    }
  }

  lemma NoSplit(c: nat)
    ensures SplitCount(c, 0) == c
  {
  }

  lemma EmptyRun(x: nat)
    ensures Allowed(x, []) && Changes(x, []) == 0 && After(x, []) == x
  {
  }

  lemma SplitEnabled(v: nat)
    ensures Enabled(v, Lock) <==> !Parse(v).locked
    ensures (Enabled(v, MarkSplit) <==> Parse(v).locked) && (Enabled(v, Unlock) <==> Parse(v).locked)
  {
  }

  lemma RunSnoc(x: nat, run: seq<Step>, s: Step)
    ensures After(x, run + [s]) == Next(After(x, run), s)
    ensures Allowed(x, run + [s]) <==> Allowed(x, run) && Enabled(After(x, run), s)
    ensures var f := Parse(After(x, run));
      Changes(x, run + [s]) == Changes(x, run) + Value(s.Unlock? && (f.inserting || f.splitting))
  {
    hide Parse, Next, Enabled;
    assert (run + [s])[..|run|] == run;
  }

  lemma Wraps(c: nat, n: nat)
    requires c < COUNTS && n > 0
    ensures (SplitCount(c, n - 1) / INSERTS + 1) * INSERTS % COUNTS == SplitCount(c, n)
  {
    if n > 1 {
      Raised(c - c % INSERTS + INSERTS * (n - 1), SplitCount(c, n - 1));
    }
  }

  lemma SplitParts(c: nat, n: nat)
    requires c < COUNTS
    ensures SplitCount(c, n) < COUNTS
    ensures SplitCount(c, n) / INSERTS == c / INSERTS <==> n % SAFE == 0
    ensures SplitCount(c, n) == c <==> n == 0 || (c % INSERTS == 0 && n % SAFE == 0)
  {
    if n > 0 {
      var q := c / INSERTS;
      var s := (q + n) / SAFE;
      assert c - c % INSERTS + INSERTS * n == s * COUNTS + (q + n) % SAFE * INSERTS;
      Lifted(s, (q + n) % SAFE * INSERTS);
      assert SplitCount(c, n) == (q + n) % SAFE * INSERTS;
      SameResidue(q, n);
    }
  }

  lemma SameResidue(q: nat, n: nat)
    requires q < SAFE
    ensures (q + n) % SAFE == q <==> n % SAFE == 0
  {
    var m := n / SAFE;
    assert n == m * SAFE + n % SAFE;
    assert (q + n) % SAFE == (q + n % SAFE) % SAFE;
  }

  /** After any number of splits of a node that nobody else works on: they are missed by `has_split`
      just when their number is a multiple of 2^19, and by `has_changed` just when the snapshot had
      counted no inserts besides. */
  lemma TooManyChanges(x: nat, n: nat)
    requires Quiet(x)
    ensures Allowed(x, SplitRun(n)) && Changes(x, SplitRun(n)) == n
    ensures HasSplit(x, After(x, SplitRun(n))) <==> n % SAFE != 0
    ensures HasChanged(x, After(x, SplitRun(n))) <==> n != 0 && (n % SAFE != 0 || Parse(x).count % INSERTS != 0)
  {
    hide Parse, After, Allowed, Changes, SplitCount, HasChanged, HasSplit;
    SplitRunCounts(x, n);
    SplitParts(Parse(x).count, n);
    Compared(x, After(x, SplitRun(n)));
  }
}
