/** Reading a leaf without its lock (masstree_get.hh, `find_unlocked`) while other threads insert,
    remove, store values, push suffixes down into new layers and rearrange it under the lock
    (masstree_insert.hh, masstree_remove.hh). Every load and store of shared memory is one step.
    Inserts usually leave the version alone: what protects a reader is that a leaf is in an insert
    phase or a remove phase, and that changing the phase changes the version.

    The version is a number that does not wrap here; NodeVersion.dfy says when that is sound. */
module LeafReader {
  import opened NodeStore
  import opened Key
  import opened PermList
  import LayerForest

  /** A slot: slice, `keylenx_`, the rest of the key if that is a suffix, and `lv_`, a value or the root
      of a layer. */
  datatype LeafSlot = LeafSlot(ikey: Ikey, keylenx: nat, rest: Bytes, lv: nat)

  /** `modstate_insert` and `modstate_remove`. */
  datatype Phase = InsertPhase | RemovePhase

  /** The shared memory of a leaf. `inserting` is the inserting or the splitting bit of the version
      word. */
  datatype LeafState = LeafState(slots: seq<LeafSlot>, perm: seq<nat>, size: nat, phase: Phase, version: nat,
                                 inserting: bool, deleted: bool)

  /** The thread that holds the lock, by what it is to do next. `Change` stands for everything else that
      is done under the inserting or splitting bit: splits. */
  datatype Writer =
    | Free
    | Insert
    | InsertMarked
    | Assign
    | Remove(i: nat)
    | RemoveMarked(i: nat)
    | Erase(i: nat)
    | Delete
    | NewLayer(i: nat)
    | LayerValue(i: nat)
    | LayerLength(i: nat)
    | Update
    | Change
    | Unlock

  /** What `find_unlocked` makes of a leaf: nothing, a value, or a layer to go on in. */
  datatype Outcome = Absent | Value(lv: nat) | Layer(root: Ptr)

  /** What the reader loaded: the stable version, the permutation, and (history) the entries of the leaf
      at that moment. */
  datatype View = View(v: nat, perm: seq<nat>, size: nat, snap: seq<LeafSlot>)

  /** The reader. A comparison takes two loads, and a match three. */
  datatype Reader =
    | Start
    | Stable(v: nat)
    | Search(w: View, l: nat, r: nat)
    | Compare(w: View, l: nat, r: nat, ikey: Ikey)
    | Found(w: View, j: nat)
    | Loaded(w: View, j: nat, lv: nat)
    | HasRest(w: View, j: nat, lv: nat)
    | Check(v: nat, result: Outcome)
    | Return(v: nat, result: Outcome)
    | Elsewhere

  /** `hist` (history): the states of the leaf since the reader loaded its version. */
  datatype State = State(leaf: LeafState, writer: Writer, reader: Reader, hist: seq<LeafState>)

  /** The key looked for. */
  datatype Target = Target(key: EntryKey, rest: Bytes)

  ghost predicate StateWf(n: LeafState) {
    |n.slots| == WIDTH && IsPerm(n.perm, WIDTH) && n.size <= WIDTH
  }

  function KeyOf(s: LeafSlot): EntryKey {
    EntryKey(s.ikey, SlotClass(s.keylenx))
  }

  /** What a slot with the slice and length class of the key means (`ksuf_matches`). */
  function Read(s: LeafSlot, t: Target): Outcome {
    if s.keylenx < KSUF_KEYLENX then Value(s.lv)
    else if s.keylenx == LAYER_KEYLENX then Layer(s.lv)
    else if s.rest == t.rest then Value(s.lv) else Absent
  }

  function Entry(n: LeafState, j: nat): LeafSlot
    requires j < |n.perm| && n.perm[j] < |n.slots|
  {
    n.slots[n.perm[j]]
  }

  function Stored(n: LeafState, p: nat, e: LeafSlot): LeafState
    requires p < |n.slots|
  {
    n.(slots := n.slots[p := e])
  }

  ghost predicate InOrder(n: LeafState)
    requires StateWf(n)
  {
    forall i, j :: 0 <= i < j < n.size ==> Less(KeyOf(n.slots[n.perm[i]]), KeyOf(n.slots[n.perm[j]]))
  }

  /** Only the payload may differ. */
  predicate SameKey(a: LeafSlot, b: LeafSlot) {
    a.ikey == b.ikey && a.keylenx == b.keylenx && a.rest == b.rest
  }

  /** The slot says something about the key. */
  predicate Answers(s: LeafSlot, t: Target) {
    KeyOf(s) == t.key && Read(s, t) != Absent
  }

  /** What a leaf holds for a key: the meaning of a read done all at once. */
  ghost predicate Holds(n: LeafState, t: Target, result: Outcome) {
    && StateWf(n)
    && if result == Absent then forall j :: 0 <= j < n.size ==> !Answers(n.slots[n.perm[j]], t)
       else exists j :: 0 <= j < n.size && Answers(n.slots[n.perm[j]], t) && Read(n.slots[n.perm[j]], t) == result
  }

  /** The leaf held that when its version was `v` and no change was being made. */
  ghost predicate Seen(hist: seq<LeafState>, v: nat, t: Target, result: Outcome) {
    exists i :: 0 <= i < |hist| && Clean(hist[i], v) && Holds(hist[i], t, result)
  }

  /** The version has not changed since it was `v`. Once it has, it never comes back. */
  predicate Clean(n: LeafState, v: nat) {
    n.version == v && !n.inserting
  }

  // ----- steps -----

  /** The stores of the lock holder. */
  ghost predicate WriterStep(n: LeafState, w: Writer, n': LeafState, w': Writer)
    requires StateWf(n)
  {
    match w
    case Free =>
      n' == n && !n.deleted && (
        || w' == Insert || w' == Update
        || (w'.Remove? && w'.i < n.size)
        || (w'.NewLayer? && w'.i < n.size && Entry(n, w'.i).keylenx == KSUF_KEYLENX))
    case Insert =>
      if n.phase == InsertPhase then n' == n && w' == Assign
      else n' == n.(inserting := true) && w' == InsertMarked
    case InsertMarked => n' == n.(phase := InsertPhase) && w' == Assign
    case Assign =>
      || (n' == n && w' == Unlock)
      || (n.size < WIDTH && w' == Assign
          && exists e: LeafSlot {:trigger Stored(n, n.perm[WIDTH - 1], e)} :: n' == Stored(n, n.perm[WIDTH - 1], e))
      || (n.size < WIDTH && w' == Assign && n' == n.(perm := Exchange(n.perm, n.size, WIDTH - 1)))
      || (n.size < WIDTH && w' == Unlock
          && exists i: nat :: i <= n.size && n' == n.(perm := InsertFromBack(n.perm, i), size := n.size + 1)
                              && StateWf(n') && InOrder(n'))
      || (w' == Change && n' == n.(inserting := true))
    case Remove(i) =>
      if n.phase == RemovePhase then n' == n && w' == Erase(i)
      else n' == n.(inserting := true) && w' == RemoveMarked(i)
    case RemoveMarked(i) => n' == n.(phase := RemovePhase) && w' == Erase(i)
    case Erase(i) =>
      && i < n.size && n' == n.(perm := RemoveAt(n.perm, n.size, i), size := n.size - 1)
      && (w' == Unlock || (n'.size == 0 && w' == Delete))
    case Delete => n' == n.(inserting := true, deleted := true) && w' == Unlock
    case NewLayer(i) => n' == n.(inserting := true) && w' == LayerValue(i)
    case LayerValue(i) =>
      w' == LayerLength(i) && i < n.size && exists root: nat :: n' == Stored(n, n.perm[i], Entry(n, i).(lv := root))
    case LayerLength(i) =>
      w' == Unlock && i < n.size && n' == Stored(n, n.perm[i], Entry(n, i).(keylenx := LAYER_KEYLENX))
    case Update =>
      w' == Unlock && exists i: nat, lv: nat :: i < n.size && n' == Stored(n, n.perm[i], Entry(n, i).(lv := lv))
    case Change =>
      && StateWf(n') && n'.version == n.version && n'.inserting && n'.deleted == n.deleted
      && (w' == Change || (w' == Unlock && InOrder(n')))
    case Unlock =>
      w' == Free && n' == if n.inserting then n.(inserting := false, version := n.version + 1) else n
  }

  /** The loads of the reader. A reader of a deleted leaf leaves it, and one whose check fails may. */
  ghost predicate ReaderStep(n: LeafState, t: Target, r: Reader, r': Reader)
    requires StateWf(n)
  {
    match r
    case Start => !n.inserting && r' == if n.deleted then Elsewhere else Stable(n.version)
    case Stable(v) =>
      r' == Search(View(v, n.perm, n.size, seq(n.size, j requires 0 <= j < n.size => Entry(n, j))), 0, n.size)
    case Search(w, lo, hi) =>
      if lo < hi then
        var m := (lo + hi) / 2;
        m < |w.perm| && w.perm[m] < WIDTH && r' == Compare(w, lo, hi, n.slots[w.perm[m]].ikey)
      else r' == Check(w.v, Absent)
    case Compare(w, lo, hi, ikey) =>
      var m := (lo + hi) / 2;
      && m < |w.perm| && w.perm[m] < WIDTH
      && var key := EntryKey(ikey, SlotClass(n.slots[w.perm[m]].keylenx));
         r' == if Less(t.key, key) then Search(w, lo, m) else if t.key == key then Found(w, m) else Search(w, m + 1, hi)
    case Found(w, j) => j < |w.perm| && w.perm[j] < WIDTH && r' == Loaded(w, j, n.slots[w.perm[j]].lv)
    case Loaded(w, j, lv) =>
      && j < |w.perm| && w.perm[j] < WIDTH
      && var x := n.slots[w.perm[j]].keylenx;
         r' == if x < KSUF_KEYLENX then Check(w.v, Value(lv))
               else if x == LAYER_KEYLENX then Check(w.v, Layer(lv))
               else HasRest(w, j, lv)
    case HasRest(w, j, lv) =>
      && j < |w.perm| && w.perm[j] < WIDTH
      && r' == Check(w.v, if n.slots[w.perm[j]].rest == t.rest then Value(lv) else Absent)
    case Check(v, result) =>
      if n.version == v && !n.inserting then r' == Return(v, result) else r' == Start || r' == Elsewhere
    case Return(_, _) => false
    case Elsewhere => false
  }

  ghost predicate Step(s: State, t: Target, s': State)
    requires StateWf(s.leaf)
  {
    || (WriterStep(s.leaf, s.writer, s'.leaf, s'.writer) && s'.reader == s.reader && s'.hist == s.hist + [s'.leaf])
    || (ReaderStep(s.leaf, t, s.reader, s'.reader) && s'.leaf == s.leaf && s'.writer == s.writer
        && s'.hist == if s.reader.Start? then [s.leaf] else s.hist)
  }

  ghost predicate Init(s: State) {
    s.writer == Free && s.reader == Start && StateWf(s.leaf) && InOrder(s.leaf) && !s.leaf.inserting
  }

  // ----- the invariant -----

  ghost predicate WriterOk(n: LeafState, w: Writer) {
    && StateWf(n) && (w != Change ==> InOrder(n))
    && match w
       case Free => !n.inserting
       case InsertMarked => n.inserting
       case Assign => n.phase == InsertPhase
       case Remove(i) => i < n.size
       case RemoveMarked(i) => i < n.size && n.inserting
       case Erase(i) => i < n.size && n.phase == RemovePhase
       case NewLayer(i) => i < n.size && Entry(n, i).keylenx == KSUF_KEYLENX
       case LayerValue(i) => i < n.size && Entry(n, i).keylenx == KSUF_KEYLENX && n.inserting
       case LayerLength(i) => i < n.size && Entry(n, i).keylenx == KSUF_KEYLENX && n.inserting
       case Change => n.inserting
       case _ => true
  }

  ghost predicate InUse(n: LeafState, p: nat) {
    exists i :: 0 <= i < n.size && i < |n.perm| && n.perm[i] == p
  }

  /** What the reader's permutation still means: its slots keep their keys, and what is in them has
      been in the leaf. In an insert phase they are all still in use; in a remove phase no slot is
      given a new key. */
  ghost predicate Tracked(n: LeafState, hist: seq<LeafState>, t: Target, w: View)
    requires StateWf(n) && ViewOk(w)
  {
    && (forall i, j :: 0 <= i < j < w.size ==> Less(KeyOf(w.snap[i]), KeyOf(w.snap[j])))
    && (forall j :: 0 <= j < w.size ==> SameKey(n.slots[w.perm[j]], w.snap[j]))
    && (n.phase == InsertPhase ==> forall j :: 0 <= j < w.size ==> InUse(n, w.perm[j]))
    && (forall j :: 0 <= j < w.size && Answers(w.snap[j], t) ==> Seen(hist, w.v, t, Read(n.slots[w.perm[j]], t)))
    && ((forall j :: 0 <= j < w.size ==> !Answers(w.snap[j], t)) ==> Seen(hist, w.v, t, Absent))
  }

  ghost predicate ViewOk(w: View) {
    |w.perm| == WIDTH && (forall j :: 0 <= j < WIDTH ==> w.perm[j] < WIDTH) && w.size <= WIDTH && |w.snap| == w.size
  }

  /** What is left to search. */
  ghost predicate Between(w: View, t: Target, lo: nat, hi: nat)
    requires |w.snap| == w.size
  {
    && (forall j :: 0 <= j < lo && j < w.size ==> Less(KeyOf(w.snap[j]), t.key))
    && (forall j :: hi <= j < w.size ==> Less(t.key, KeyOf(w.snap[j])))
  }

  /** What loading the payload as `lv` from position `j` has told. */
  ghost predicate Took(hist: seq<LeafState>, w: View, t: Target, j: nat, lv: nat)
    requires |w.snap| == w.size && j < w.size
  {
    Answers(w.snap[j], t) ==> Seen(hist, w.v, t, Read(w.snap[j].(lv := lv), t))
  }

  ghost predicate ReaderOk(n: LeafState, hist: seq<LeafState>, t: Target, r: Reader)
    requires StateWf(n)
  {
    match r
    case Start => true
    case Stable(v) => v <= n.version && hist != [] && hist[|hist| - 1] == n
    case Search(w, lo, hi) =>
      w.v <= n.version && ViewOk(w) && lo <= hi <= w.size
      && (Clean(n, w.v) ==> Tracked(n, hist, t, w) && Between(w, t, lo, hi))
    case Compare(w, lo, hi, ikey) =>
      && w.v <= n.version && ViewOk(w) && lo < hi <= w.size
      && (Clean(n, w.v) ==> Tracked(n, hist, t, w) && Between(w, t, lo, hi) && ikey == w.snap[(lo + hi) / 2].ikey)
    case Found(w, j) =>
      w.v <= n.version && ViewOk(w) && j < w.size
      && (Clean(n, w.v) ==> Tracked(n, hist, t, w) && KeyOf(w.snap[j]) == t.key)
    case Loaded(w, j, lv) =>
      && w.v <= n.version && ViewOk(w) && j < w.size
      && (Clean(n, w.v) ==> Tracked(n, hist, t, w) && KeyOf(w.snap[j]) == t.key && Took(hist, w, t, j, lv))
    case HasRest(w, j, lv) =>
      && w.v <= n.version && ViewOk(w) && j < w.size
      && (Clean(n, w.v) ==> Tracked(n, hist, t, w) && KeyOf(w.snap[j]) == t.key && Took(hist, w, t, j, lv)
                            && w.snap[j].keylenx >= KSUF_KEYLENX && w.snap[j].keylenx != LAYER_KEYLENX)
    case Check(v, result) => v <= n.version && (Clean(n, v) ==> Seen(hist, v, t, result))
    case Return(v, result) => Seen(hist, v, t, result)
    case Elsewhere => true
  }

  ghost predicate Invariant(s: State, t: Target) {
    WriterOk(s.leaf, s.writer) && ReaderOk(s.leaf, s.hist, t, s.reader)
  }

  // ----- the lock holder keeps it -----

  lemma WriterWf(n: LeafState, w: Writer)
    requires WriterOk(n, w)
    ensures StateWf(n) && |n.perm| == WIDTH && |n.slots| == WIDTH && forall i :: 0 <= i < WIDTH ==> n.perm[i] < WIDTH
  {
  }

  lemma WriterKeepsLeaf(n: LeafState, w: Writer, n': LeafState, w': Writer)
    requires WriterOk(n, w) && WriterStep(n, w, n', w')
    ensures WriterOk(n', w')
    ensures n.version <= n'.version
    ensures forall v: nat :: v <= n.version && Clean(n', v) ==> Clean(n, v) && n'.phase == n.phase
  {
    WriterWf(n, w);
    hide IsPerm;
    match w
    case Assign => if n' != n && w' == Assign { AssignKeeps(n, n'); }
    case Erase(i) => EraseKeeps(n, i, n');
    case Update => StoreKeeps(n, w, n', w');
    case LayerValue(i) => StoreKeeps(n, w, n', w');
    case LayerLength(i) => StoreKeeps(n, w, n', w');
    case _ =>
  }

  lemma EraseKeeps(n: LeafState, i: nat, n': LeafState)
    requires StateWf(n) && InOrder(n) && i < n.size && n' == n.(perm := RemoveAt(n.perm, n.size, i), size := n.size - 1)
    ensures StateWf(n') && InOrder(n')
  {
    RemoveAtPerm(n.perm, WIDTH, n.size, i);
  }

  lemma StoreKeeps(n: LeafState, w: Writer, n': LeafState, w': Writer)
    requires WriterOk(n, w) && WriterStep(n, w, n', w') && (w.Update? || w.LayerValue? || w.LayerLength?)
    ensures WriterOk(n', w')
  {
    WriterWf(n, w);
    hide IsPerm, InOrder;
    match w
    case Update =>
      var i: nat, lv: nat :| i < n.size && n' == Stored(n, n.perm[i], Entry(n, i).(lv := lv));
      EntryStored(n, i, Entry(n, i).(lv := lv));
    case LayerValue(i) =>
      var root: nat :| n' == Stored(n, n.perm[i], Entry(n, i).(lv := root));
      EntryStored(n, i, Entry(n, i).(lv := root));
    case LayerLength(i) =>
      EntryStored(n, i, Entry(n, i).(keylenx := LAYER_KEYLENX));
  }

  /** A store into a slot in use that keeps its slice and length class. */
  lemma EntryStored(n: LeafState, i: nat, e: LeafSlot)
    requires StateWf(n) && InOrder(n) && i < n.size && KeyOf(e) == KeyOf(Entry(n, i))
    ensures var n' := Stored(n, n.perm[i], e);
      StateWf(n') && InOrder(n') && Entry(n', i) == e && forall p :: InUse(n, p) ==> InUse(n', p)
  {
    var n' := Stored(n, n.perm[i], e);
    assert forall j :: 0 <= j < n.size ==> n'.slots[n'.perm[j]] == if j == i then e else n.slots[n.perm[j]];
    forall p | InUse(n, p) ensures InUse(n', p) {
      var j :| 0 <= j < n.size && j < |n.perm| && n.perm[j] == p;
      assert n'.perm[j] == p;
    }
  }

  /** The slot at the back of the permutation is not in use. */
  lemma AssignKeeps(n: LeafState, n': LeafState)
    requires StateWf(n) && InOrder(n) && n.size < WIDTH
    requires (exists e: LeafSlot {:trigger Stored(n, n.perm[WIDTH - 1], e)} :: n' == Stored(n, n.perm[WIDTH - 1], e))
      || n' == n.(perm := Exchange(n.perm, n.size, WIDTH - 1))
    ensures StateWf(n') && InOrder(n')
    ensures forall p :: InUse(n, p) ==> InUse(n', p)
    ensures forall p: nat :: p < WIDTH && InUse(n, p) ==> n'.slots[p] == n.slots[p]
  {
    if n' == n.(perm := Exchange(n.perm, n.size, WIDTH - 1)) {
      ExchangePerm(n.perm, WIDTH, n.size, WIDTH - 1);
      assert forall i :: 0 <= i < n.size ==> n'.perm[i] == n.perm[i];
    } else {
      assert n'.perm == n.perm && n'.size == n.size;
      assert forall i :: 0 <= i < n.size ==> n'.slots[n.perm[i]] == n.slots[n.perm[i]];
    }
    forall p | InUse(n, p) ensures InUse(n', p) {
      var i :| 0 <= i < n.size && i < |n.perm| && n.perm[i] == p;
      assert n'.perm[i] == p;
    }
  }

  lemma SeenMore(hist: seq<LeafState>, n: LeafState, v: nat, t: Target, result: Outcome)
    ensures Seen(hist, v, t, result) ==> Seen(hist + [n], v, t, result)
    ensures Holds(n, t, result) && Clean(n, v) ==> Seen(hist + [n], v, t, result)
  {
    if Seen(hist, v, t, result) {
      var i :| 0 <= i < |hist| && Clean(hist[i], v) && Holds(hist[i], t, result);
      assert Holds((hist + [n])[i], t, result);
    }
    if Holds(n, t, result) && Clean(n, v) { assert Holds((hist + [n])[|hist|], t, result); }
  }

  /** Slot `p` says after a step what it said before, or what the leaf says now. */
  ghost predicate SlotKept(n: LeafState, n': LeafState, p: nat, t: Target)
    requires StateWf(n) && StateWf(n') && p < WIDTH
  {
    && SameKey(n'.slots[p], n.slots[p]) && (n.phase == InsertPhase && InUse(n, p) ==> InUse(n', p))
    && (n'.slots[p] == n.slots[p] || (Answers(n.slots[p], t) ==> Holds(n', t, Read(n'.slots[p], t))))
  }

  lemma InsertedInUse(n: LeafState, i: nat, p: nat)
    requires |n.perm| == WIDTH && i <= n.size < WIDTH && InUse(n, p)
    ensures InUse(n.(perm := InsertFromBack(n.perm, i), size := n.size + 1), p)
  {
    var j :| 0 <= j < n.size && n.perm[j] == p;
    assert InsertFromBack(n.perm, i)[if j < i then j else j + 1] == p;
  }

  lemma AssignStores(n: LeafState, n': LeafState, w': Writer, p: nat, t: Target)
    requires WriterOk(n, Assign) && WriterStep(n, Assign, n', w') && StateWf(n') && w' != Change && p < WIDTH
    requires InUse(n, p)
    ensures SlotKept(n, n', p, t)
  {
    WriterWf(n, Assign);
    hide Holds, IsPerm, InOrder, InUse;
    if n' == n {
    } else if w' == Assign {
      AssignKeeps(n, n');
    } else {
      var i: nat :| i <= n.size && n' == n.(perm := InsertFromBack(n.perm, i), size := n.size + 1);
      InsertedInUse(n, i, p);
    }
  }

  lemma UpdateStores(n: LeafState, i: nat, lv: nat, p: nat, t: Target)
    requires StateWf(n) && InOrder(n) && i < n.size && p < WIDTH
    ensures var n' := Stored(n, n.perm[i], Entry(n, i).(lv := lv)); StateWf(n') && SlotKept(n, n', p, t)
  {
    var n' := Stored(n, n.perm[i], Entry(n, i).(lv := lv));
    EntryStored(n, i, Entry(n, i).(lv := lv));
    hide IsPerm, InOrder;
    if p == n.perm[i] && Answers(n.slots[p], t) { assert Answers(n'.slots[n'.perm[i]], t); }
  }

  /** What a lock holder stores under an unchanged version, slot by slot. */
  lemma CleanStores(n: LeafState, w: Writer, n': LeafState, w': Writer, p: nat, t: Target)
    requires WriterOk(n, w) && WriterStep(n, w, n', w') && StateWf(n') && !n'.inserting && n'.version == n.version
    requires p < WIDTH
    requires n.phase == InsertPhase ==> InUse(n, p)
    ensures SlotKept(n, n', p, t)
  {
    WriterWf(n, w);
    hide Holds, IsPerm, InOrder, InUse;
    match w
    case Assign => AssignStores(n, n', w', p, t);
    case Update =>
      var i: nat, lv: nat :| i < n.size && n' == Stored(n, n.perm[i], Entry(n, i).(lv := lv));
      UpdateStores(n, i, lv, p, t);
    case _ =>
  }

  lemma TrackedKept(n: LeafState, k: Writer, n': LeafState, k': Writer, hist: seq<LeafState>, t: Target, w: View)
    requires WriterOk(n, k) && WriterStep(n, k, n', k') && StateWf(n') && Clean(n', w.v) && n'.version == n.version
    requires ViewOk(w) && Tracked(n, hist, t, w) && n'.phase == n.phase
    ensures Tracked(n', hist + [n'], t, w)
  {
    WriterWf(n, k);
    hide Seen, Holds, InOrder, WriterStep, WriterOk;
    forall j | 0 <= j < w.size
      ensures SameKey(n'.slots[w.perm[j]], w.snap[j])
      ensures n'.phase == InsertPhase ==> InUse(n', w.perm[j])
      ensures Answers(w.snap[j], t) ==> Seen(hist + [n'], w.v, t, Read(n'.slots[w.perm[j]], t))
    {
      CleanStores(n, k, n', k', w.perm[j], t);
      SeenMore(hist, n', w.v, t, Read(n.slots[w.perm[j]], t));
      SeenMore(hist, n', w.v, t, Read(n'.slots[w.perm[j]], t));
    }
    SeenMore(hist, n', w.v, t, Absent);
  }

  lemma TookMore(hist: seq<LeafState>, n: LeafState, w: View, t: Target, j: nat, lv: nat)
    requires |w.snap| == w.size && j < w.size && Took(hist, w, t, j, lv)
    ensures Took(hist + [n], w, t, j, lv)
  {
    SeenMore(hist, n, w.v, t, Read(w.snap[j].(lv := lv), t));
  }

  lemma WriterKeeps(s: State, t: Target, s': State)
    requires Invariant(s, t) && WriterStep(s.leaf, s.writer, s'.leaf, s'.writer)
    requires s'.reader == s.reader && s'.hist == s.hist + [s'.leaf]
    ensures Invariant(s', t)
  {
    var n, n', k, k' := s.leaf, s'.leaf, s.writer, s'.writer;
    WriterKeepsLeaf(n, k, n', k');
    hide Seen, Tracked, WriterStep, WriterOk, Took, Between;
    match s.reader
    case Start =>
    case Stable(v) =>
    case Search(w, l, r) => if Clean(n', w.v) { TrackedKept(n, k, n', k', s.hist, t, w); }
    case Compare(w, l, r, ikey) => if Clean(n', w.v) { TrackedKept(n, k, n', k', s.hist, t, w); }
    case Found(w, j) => if Clean(n', w.v) { TrackedKept(n, k, n', k', s.hist, t, w); }
    case Loaded(w, j, lv) =>
      if Clean(n', w.v) {
        TrackedKept(n, k, n', k', s.hist, t, w);
        TookMore(s.hist, n', w, t, j, lv);
      }
    case HasRest(w, j, lv) =>
      if Clean(n', w.v) {
        TrackedKept(n, k, n', k', s.hist, t, w);
        TookMore(s.hist, n', w, t, j, lv);
      }
    case Check(v, result) => SeenMore(s.hist, n', v, t, result);
    case Return(v, result) => SeenMore(s.hist, n', v, t, result);
    case Elsewhere =>
  }

  // ----- the reader keeps it -----

  /** Under an unchanged version the leaf just loaded is its own history. */
  lemma TrackedAtFirst(n: LeafState, hist: seq<LeafState>, t: Target, v: nat, snap: seq<LeafSlot>)
    requires StateWf(n) && InOrder(n) && hist != [] && hist[|hist| - 1] == n && Clean(n, v)
    requires snap == seq(n.size, j requires 0 <= j < n.size => Entry(n, j))
    ensures ViewOk(View(v, n.perm, n.size, snap)) && Tracked(n, hist, t, View(v, n.perm, n.size, snap))
  {
    forall j | 0 <= j < n.size ensures InUse(n, n.perm[j]) {
    }
    forall j | 0 <= j < n.size && Answers(snap[j], t) ensures Seen(hist, v, t, Read(n.slots[n.perm[j]], t)) {
      assert Holds(hist[|hist| - 1], t, Read(Entry(n, j), t));
    }
    if forall j :: 0 <= j < n.size ==> !Answers(snap[j], t) {
      forall j | 0 <= j < n.size ensures !Answers(Entry(n, j), t) {
        assert Entry(n, j) == snap[j];
      }
      assert Holds(hist[|hist| - 1], t, Absent);
    }
  }

  /** The search is over, or the one entry with the slice and class does not answer: the key is not
      there. */
  lemma TrackedNone(n: LeafState, hist: seq<LeafState>, t: Target, w: View, lo: nat)
    requires StateWf(n) && ViewOk(w) && Tracked(n, hist, t, w) && lo <= w.size
    requires forall j :: 0 <= j < lo ==> Less(KeyOf(w.snap[j]), t.key)
    requires lo < w.size ==> Less(t.key, KeyOf(w.snap[lo])) || (t.key == KeyOf(w.snap[lo]) && !Answers(w.snap[lo], t))
    ensures Seen(hist, w.v, t, Absent)
  {
    forall j | 0 <= j < w.size ensures !Answers(w.snap[j], t) {
      assert lo < j ==> Less(KeyOf(w.snap[lo]), KeyOf(w.snap[j]));
    }
  }

  /** What a probe of position `m` tells about the entries on both sides. */
  lemma Probed(n: LeafState, hist: seq<LeafState>, t: Target, w: View, m: nat)
    requires StateWf(n) && ViewOk(w) && Tracked(n, hist, t, w) && m < w.size
    ensures SameKey(n.slots[w.perm[m]], w.snap[m])
    ensures Answers(w.snap[m], t) ==> Seen(hist, w.v, t, Read(n.slots[w.perm[m]], t))
    ensures !Less(KeyOf(w.snap[m]), t.key) ==> forall j :: m < j < w.size ==> Less(t.key, KeyOf(w.snap[j]))
    ensures !Less(t.key, KeyOf(w.snap[m])) ==> forall j :: 0 <= j < m ==> Less(KeyOf(w.snap[j]), t.key)
  {
  }

  lemma SearchKeeps(s: State, t: Target, s': State)
    requires Invariant(s, t) && (s.reader.Search? || s.reader.Compare?)
    requires ReaderStep(s.leaf, t, s.reader, s'.reader) && s'.leaf == s.leaf && s'.writer == s.writer
    requires s'.hist == s.hist
    ensures Invariant(s', t)
  {
    hide Tracked, Seen, InOrder, WriterOk;
    WriterWf(s.leaf, s.writer);
    var w, lo, hi := s.reader.w, s.reader.l, s.reader.r;
    if Clean(s.leaf, w.v) {
      if lo >= hi {
        TrackedNone(s.leaf, s.hist, t, w, lo);
      } else {
        Probed(s.leaf, s.hist, t, w, (lo + hi) / 2);
      }
    }
  }

  lemma PayloadKeeps(s: State, t: Target, s': State)
    requires Invariant(s, t) && (s.reader.Found? || s.reader.Loaded? || s.reader.HasRest?)
    requires ReaderStep(s.leaf, t, s.reader, s'.reader) && s'.leaf == s.leaf && s'.writer == s.writer
    requires s'.hist == s.hist
    ensures Invariant(s', t)
  {
    hide Tracked, Seen, InOrder, WriterOk;
    WriterWf(s.leaf, s.writer);
    var w, j := s.reader.w, s.reader.j;
    if Clean(s.leaf, w.v) {
      Probed(s.leaf, s.hist, t, w, j);
      if !Answers(w.snap[j], t) { TrackedNone(s.leaf, s.hist, t, w, j); }
    }
  }

  lemma ReaderKeeps(s: State, t: Target, s': State)
    requires Invariant(s, t) && ReaderStep(s.leaf, t, s.reader, s'.reader) && s'.leaf == s.leaf && s'.writer == s.writer
    requires s'.hist == if s.reader.Start? then [s.leaf] else s.hist
    ensures Invariant(s', t)
  {
    hide Tracked, Seen, InOrder;
    var n := s.leaf;
    match s.reader
    case Start =>
    case Stable(v) =>
      if Clean(n, v) { TrackedAtFirst(n, s.hist, t, v, s'.reader.w.snap); }
    case Search(w, l, r) => SearchKeeps(s, t, s');
    case Compare(w, l, r, ikey) => SearchKeeps(s, t, s');
    case Found(w, j) => PayloadKeeps(s, t, s');
    case Loaded(w, j, lv) => PayloadKeeps(s, t, s');
    case HasRest(w, j, lv) => PayloadKeeps(s, t, s');
    case Check(v, result) =>
  }

  lemma StepKeeps(s: State, t: Target, s': State)
    requires Invariant(s, t) && Step(s, t, s')
    ensures Invariant(s', t)
  {
    if WriterStep(s.leaf, s.writer, s'.leaf, s'.writer) && s'.reader == s.reader && s'.hist == s.hist + [s'.leaf] {
      WriterKeeps(s, t, s');
    } else {
      ReaderKeeps(s, t, s');
    }
  }

  // ----- every run -----

  ghost predicate Run(run: seq<State>, t: Target) {
    && run != [] && Init(run[0])
    && forall i :: 0 <= i < |run| - 1 ==> StateWf(run[i].leaf) && Step(run[i], t, run[i + 1])
  }

  lemma {:induction false} RunKeeps(run: seq<State>, t: Target, n: nat)
    requires Run(run, t) && n < |run|
    ensures Invariant(run[n], t)
  {
    if n > 0 {
      RunKeeps(run, t, n - 1);
      assert Step(run[n - 1], t, run[n - 1 + 1]);
      StepKeeps(run[n - 1], t, run[n]);
    }
  }

  /** State `k` of the run has leaf `n`, and the reader has not started over since. */
  ghost predicate Since(run: seq<State>, k: nat, n: nat, leaf: LeafState) {
    k <= n < |run| && run[k].leaf == leaf && forall m :: k < m <= n ==> !run[m].reader.Start?
  }

  /** The history holds states of the run since the reader loaded the version. */
  lemma {:induction false} HistoryIsRun(run: seq<State>, t: Target, n: nat, i: nat) returns (k: nat)
    requires Run(run, t) && n < |run| && !run[n].reader.Start? && i < |run[n].hist|
    ensures Since(run, k, n, run[n].hist[i])
  {
    assert n > 0 && Step(run[n - 1], t, run[n - 1 + 1]);
    if run[n - 1].reader.Start? {
      k := n - 1;
    } else if i == |run[n - 1].hist| {
      k := n;
    } else {
      k := HistoryIsRun(run, t, n - 1, i);
    }
  }

  // ----- what a returned answer says -----

  /** The slot holds value `v` for the key: slice and length are the key's, and if the key goes on after
      its slice, so does the slot, with all of the rest. */
  ghost predicate GivesValue(s: LeafSlot, t: Target, v: nat) {
    KeyOf(s) == t.key && s.lv == v && s.keylenx != LAYER_KEYLENX && (KSUF_KEYLENX <= s.keylenx ==> s.rest == t.rest)
  }

  /** The slot leads on to layer `c`, which holds every longer key of the slice. */
  ghost predicate LeadsTo(s: LeafSlot, t: Target, c: Ptr) {
    KeyOf(s) == t.key && s.lv == c && s.keylenx == LAYER_KEYLENX
  }

  /** The answer is the truth about the leaf: some slot in use says it, or none says anything. */
  ghost predicate Told(n: LeafState, t: Target, result: Outcome) {
    && StateWf(n)
    && match result
       case Absent => forall j, v :: 0 <= j < n.size ==> !GivesValue(Entry(n, j), t, v) && !LeadsTo(Entry(n, j), t, v)
       case Value(v) => exists j :: 0 <= j < n.size && GivesValue(Entry(n, j), t, v)
       case Layer(c) => exists j :: 0 <= j < n.size && LeadsTo(Entry(n, j), t, c)
  }

  lemma HoldsTold(n: LeafState, t: Target, result: Outcome)
    requires Holds(n, t, result)
    ensures Told(n, t, result)
  {
    if result == Absent {
      forall j, v | 0 <= j < n.size ensures !GivesValue(Entry(n, j), t, v) && !LeadsTo(Entry(n, j), t, v) {
        assert !Answers(n.slots[n.perm[j]], t);
      }
    } else {
      var j :| 0 <= j < n.size && Answers(n.slots[n.perm[j]], t) && Read(n.slots[n.perm[j]], t) == result;
      assert Entry(n, j) == n.slots[n.perm[j]];
    }
  }

  /** In every interleaving, what a reader returns is true of the leaf at some moment between the load of
      the version and the check, when the leaf had that version and was not being changed: a value, or a
      layer, is that of a slot which then held the key, and an absent key was in no slot. */
  lemma ReadIsLinearizable(run: seq<State>, t: Target, n: nat)
    requires Run(run, t) && n < |run| && run[n].reader.Return?
    ensures exists k ::
      0 <= k <= n && Clean(run[k].leaf, run[n].reader.v)
      && Told(run[k].leaf, t, run[n].reader.result)
      && forall m :: k < m <= n ==> !run[m].reader.Start?
  {
    RunKeeps(run, t, n);
    var v, result := run[n].reader.v, run[n].reader.result;
    var i :| 0 <= i < |run[n].hist| && Clean(run[n].hist[i], v) && Holds(run[n].hist[i], t, result);
    var k := HistoryIsRun(run, t, n, i);
    HoldsTold(run[k].leaf, t, result);
  }

  // ----- one leaf of a trie -----

  /** The key as a reader of one leaf looks for it. */
  function TargetOf(k: Bytes): Target {
    Target(EntryOf(k), if |k| > SLICE then k[SLICE..] else [])
  }

  /** What a slot stores, as an entry of a layer. */
  function Payload(s: LeafSlot): LayerForest.Payload<nat> {
    if s.keylenx == LAYER_KEYLENX then LayerForest.Link(s.lv)
    else if KSUF_KEYLENX <= s.keylenx then LayerForest.Suffix(s.rest, s.lv)
    else LayerForest.Value(s.lv)
  }

  /** The leaf is the one of layer `w` that holds entry `e`, if the layer has it. */
  ghost predicate HoldsFor(n: LeafState, w: LayerForest.View<nat>, e: EntryKey) {
    && StateWf(n)
    && (forall j :: 0 <= j < n.size && KeyOf(Entry(n, j)) == e ==> e in w && w[e] == Payload(Entry(n, j)))
    && (e in w ==> exists j :: 0 <= j < n.size && KeyOf(Entry(n, j)) == e)
  }

  /** A true answer from the responsible leaf is the lookup of the trie: the value there is, no value,
      or what the next layer holds for the rest of the key. */
  lemma ToldIsLookup(n: LeafState, f: LayerForest.Forest<nat>, m: Ptr, k: Bytes, result: Outcome)
    requires LayerForest.WF(f) && m in f.vs && HoldsFor(n, f.vs[m], EntryOf(k)) && Told(n, TargetOf(k), result)
    ensures match result
      case Absent => LayerForest.Lookup(f, m, k) == None
      case Value(v) => LayerForest.Lookup(f, m, k) == Some(v)
      case Layer(c) => c in f.vs && |k| > SLICE && LayerForest.Lookup(f, m, k) == LayerForest.Lookup(f, c, k[SLICE..])
  {
    var e, w := EntryOf(k), f.vs[m];
    if e in w {
      assert LayerForest.EntryOk(f, m, e);
      var j :| 0 <= j < n.size && KeyOf(Entry(n, j)) == e;
      assert Payload(Entry(n, j)) == w[e];
      assert result == Absent ==> !GivesValue(Entry(n, j), TargetOf(k), Entry(n, j).lv)
                                  && !LeadsTo(Entry(n, j), TargetOf(k), Entry(n, j).lv);
    }
  }
}
