/** The slot through which connected ports of ck_lab/Port.h hand over their buffers: one atomic
    word holding an aligned buffer address with three flags in its low bits, exchanged by a
    compare-and-swap loop that may fail spuriously.

    First any number of clients with a buffer each; then the channel of one output and one
    input port. */
module PortSlot {

  import opened Options

  type Word = bv64

  const IS_FINISHED: Word := 1
  const IS_NEEDED: Word := 2
  const HAS_DATA: Word := 4
  const FLAGS_MASK: Word := IS_FINISHED | IS_NEEDED | HAS_DATA
  const PTR_MASK: Word := !FLAGS_MASK

  predicate IsBuffer(w: Word) { w != 0 && w & FLAGS_MASK == 0 }

  predicate IsFlags(w: Word) { w & PTR_MASK == 0 }

  function PtrOf(w: Word): Word { w & PTR_MASK }

  function FlagsOf(w: Word): Word { w & FLAGS_MASK }

  predicate HasData(w: Word) { w & HAS_DATA != 0 }

  /** The flags after an exchange. */
  function Masked(before: Word, flags: Word, mask: Word): Word { (before & !mask) | flags }

  /** What the loop tries to store at first (line 64). */
  function FirstTry(flags: Word, buffer: Word): Word { flags | buffer }

  /** What the loop tries to store when it last saw `expected` (line 67). */
  function Desired(expected: Word, flags: Word, mask: Word, buffer: Word): Word {
    ((expected & FLAGS_MASK & !mask) | flags) | buffer
  }

  // ---- Clients inside Swap ----

  /** A call of Swap in its loop. */
  datatype Call = Call(flags: Word, mask: Word, expected: Word, desired: Word)

  /** `buffer` is `data_`. */
  datatype Client = Client(buffer: Word, call: Option<Call>)

  datatype Slot = Slot(word: Word, clients: seq<Client>)

  /** `Win` and `Lose`: a compare-and-swap that succeeds or fails; a weak one may fail although
      the word is as expected. `Mark`: somebody changes the flags other than HAS_DATA. */
  datatype Act =
    | Begin(i: nat, flags: Word, mask: Word)
    | Win(i: nat)
    | Lose(i: nat)
    | Mark(word: Word)

  predicate Busy(s: Slot, i: nat) { i < |s.clients| && s.clients[i].call.Some? }

  predicate OnlyMarks(a: Word, b: Word) { PtrOf(a) == PtrOf(b) && HasData(a) == HasData(b) }

  predicate Enabled(s: Slot, a: Act) {
    match a
    case Begin(i, flags, mask) =>
      i < |s.clients| && s.clients[i].call.None? && IsFlags(flags) && IsFlags(mask)
    case Win(i) => Busy(s, i) && s.word == s.clients[i].call.value.expected
    case Lose(i) => Busy(s, i)
    case Mark(word) => OnlyMarks(s.word, word)
  }

  function Next(s: Slot, a: Act): Slot
    requires Enabled(s, a)
  {
    match a
    case Begin(i, flags, mask) =>
      // lines 63-64
      var c := s.clients[i];
      s.(clients := s.clients[i := c.(call := Some(Call(flags, mask, 0, FirstTry(flags, c.buffer))))])
    case Win(i) =>
      // lines 66, 70-71
      var c := s.clients[i].call.value;
      Slot(c.desired, s.clients[i := Client(PtrOf(c.expected), None)])
    case Lose(i) =>
      // lines 66-67: the failed exchange loads the word into `expected`
      var c := s.clients[i];
      var d := Desired(s.word, c.call.value.flags, c.call.value.mask, c.buffer);
      s.(clients := s.clients[i := c.(call := Some(c.call.value.(expected := s.word, desired := d)))])
    case Mark(word) => s.(word := word)
  }

  predicate IsRun(s: Slot, acts: seq<Act>)
    decreases |acts|
  {
    acts == [] || (Enabled(s, acts[0]) && IsRun(Next(s, acts[0]), acts[1..]))
  }

  function After(s: Slot, acts: seq<Act>): Slot
    requires IsRun(s, acts)
    decreases |acts|
  {
    if acts == [] then s else After(Next(s, acts[0]), acts[1..])
  }

  // ---- The atomic exchange ----

  /** The word taken apart. */
  datatype Content = Content(buffer: Word, flags: Word)

  function ContentOf(w: Word): Content { Content(PtrOf(w), FlagsOf(w)) }

  /** What an observer sees: the slot's content and every client's buffer. */
  datatype View = View(slot: Content, buffers: seq<Word>)

  function ViewOf(s: Slot): View {
    View(ContentOf(s.word), seq(|s.clients|, i requires 0 <= i < |s.clients| => s.clients[i].buffer))
  }

  datatype Atom = Exchange(i: nat, flags: Word, mask: Word) | SetFlags(flags: Word)

  /** The caller's buffer goes in, the slot's comes out, and the flags become
      (old & ~mask) | flags. */
  function Atomic(v: View, a: Atom): View {
    match a
    case Exchange(i, flags, mask) =>
      if i < |v.buffers| then
        View(Content(v.buffers[i], Masked(v.slot.flags, flags, mask)), v.buffers[i := v.slot.buffer])
      else v
    case SetFlags(flags) => v.(slot := v.slot.(flags := flags))
  }

  function AtomsOf(s: Slot, a: Act): seq<Atom>
    requires Enabled(s, a)
  {
    match a
    case Begin(_, _, _) => []
    case Win(i) => [Exchange(i, s.clients[i].call.value.flags, s.clients[i].call.value.mask)]
    case Lose(_) => []
    case Mark(word) => [SetFlags(FlagsOf(word))]
  }

  function Atoms(s: Slot, acts: seq<Act>): seq<Atom>
    requires IsRun(s, acts)
    decreases |acts|
  {
    if acts == [] then [] else AtomsOf(s, acts[0]) + Atoms(Next(s, acts[0]), acts[1..])
  }

  function Performed(v: View, atoms: seq<Atom>): View
    decreases |atoms|
  {
    if atoms == [] then v else Performed(Atomic(v, atoms[0]), atoms[1..])
  }

  // ---- Bits ----

  lemma DesiredBits(w: Word, flags: Word, mask: Word, buffer: Word)
    requires IsBuffer(buffer) && IsFlags(flags)
    ensures var d := Desired(w, flags, mask, buffer);
            PtrOf(d) == buffer && FlagsOf(d) == Masked(FlagsOf(w), flags, mask)
  {
  }

  lemma DesiredOfNull(flags: Word, mask: Word, buffer: Word)
    ensures Desired(0, flags, mask, buffer) == FirstTry(flags, buffer)
  {
  }

  lemma BufferPtr(w: Word)
    requires IsBuffer(w)
    ensures PtrOf(w) == w
  {
    assert (w & PTR_MASK) | (w & FLAGS_MASK) == w;
  }

  lemma BufferEmpty(w: Word)
    requires IsBuffer(w)
    ensures w != 0 && !HasData(w)
  {
    assert w & HAS_DATA == (w & FLAGS_MASK) & HAS_DATA;
  }

  // ---- The invariant ----

  /** The loop always tries to store what the exchange would have to store, were the word still
      the expected one. */
  ghost predicate ClientOk(c: Client) {
    && IsBuffer(c.buffer)
    && (c.call.Some? ==>
          && IsFlags(c.call.value.flags)
          && c.call.value.desired == Desired(c.call.value.expected, c.call.value.flags, c.call.value.mask, c.buffer))
  }

  ghost predicate Inv(s: Slot) {
    && IsBuffer(PtrOf(s.word))
    && forall i :: 0 <= i < |s.clients| ==> ClientOk(s.clients[i])
  }

  ghost predicate Start(s: Slot) {
    && IsBuffer(s.word)
    && forall i :: 0 <= i < |s.clients| ==> IsBuffer(s.clients[i].buffer) && s.clients[i].call.None?
  }

  lemma StartInv(s: Slot)
    requires Start(s)
    ensures Inv(s)
  {
    hide IsBuffer, PtrOf, HasData;
    BufferPtr(s.word);
  }

  lemma StepInv(s: Slot, a: Act)
    requires Inv(s) && Enabled(s, a)
    ensures Inv(Next(s, a)) && |Next(s, a).clients| == |s.clients|
  {
    hide Desired, FirstTry, IsBuffer, IsFlags, PtrOf, FlagsOf, HasData, Masked;
    match a
    case Begin(i, flags, mask) =>
      DesiredOfNull(flags, mask, s.clients[i].buffer);
    case Win(i) =>
      var c := s.clients[i].call.value;
      DesiredBits(c.expected, c.flags, c.mask, s.clients[i].buffer);
    case Lose(i) =>
    case Mark(word) =>
  }

  /** One step is nothing or one atomic exchange, whatever the other clients are doing. */
  lemma StepRefines(s: Slot, a: Act)
    requires Inv(s) && Enabled(s, a)
    ensures ViewOf(Next(s, a)) == Performed(ViewOf(s), AtomsOf(s, a))
  {
    hide Desired, FirstTry, IsBuffer, IsFlags, PtrOf, FlagsOf, HasData, Masked;
    var v, t := ViewOf(s), ViewOf(Next(s, a));
    match a
    case Begin(i, flags, mask) =>
      assert t.buffers == v.buffers;
    case Win(i) =>
      var c := s.clients[i].call.value;
      DesiredBits(c.expected, c.flags, c.mask, s.clients[i].buffer);
      assert t.buffers == Atomic(v, Exchange(i, c.flags, c.mask)).buffers;
    case Lose(i) =>
      assert t.buffers == v.buffers;
    case Mark(word) =>
      assert t.buffers == v.buffers;
  }

  lemma {:induction false} PerformedConcat(v: View, a: seq<Atom>, b: seq<Atom>)
    ensures Performed(v, a + b) == Performed(Performed(v, a), b)
    decreases |a|
  {
    hide Atomic;
    if a == [] {
      assert a + b == b;
    } else {
      assert (a + b)[1..] == a[1..] + b;
      PerformedConcat(Atomic(v, a[0]), a[1..], b);
    }
  }

  /** Every run, with any number of clients, any interleaving and any spurious failures, shows
      what the completed exchanges show when each is carried out in one atomic step, in the
      order of the successful compare-and-swaps. */
  lemma {:induction false} Linearizable(s: Slot, acts: seq<Act>)
    requires Inv(s) && IsRun(s, acts)
    ensures Inv(After(s, acts)) && |After(s, acts).clients| == |s.clients|
    ensures ViewOf(After(s, acts)) == Performed(ViewOf(s), Atoms(s, acts))
    decreases |acts|
  {
    hide Inv, ViewOf, Next, Enabled, Performed, AtomsOf;
    if acts == [] {
      NothingPerformed(ViewOf(s));
    } else {
      StepInv(s, acts[0]);
      StepRefines(s, acts[0]);
      Linearizable(Next(s, acts[0]), acts[1..]);
      PerformedConcat(ViewOf(s), AtomsOf(s, acts[0]), Atoms(Next(s, acts[0]), acts[1..]));
    }
  }

  lemma NothingPerformed(v: View)
    ensures Performed(v, []) == v
  {
  }

  /** At any moment any flags can be set that agree on HAS_DATA. */
  lemma AnyMarks(s: Slot, flags: Word)
    requires IsFlags(flags) && HasData(flags) == HasData(s.word)
    ensures Enabled(s, Mark(PtrOf(s.word) | flags))
    ensures ContentOf(Next(s, Mark(PtrOf(s.word) | flags)).word) == Content(PtrOf(s.word), flags)
  {
    var w := PtrOf(s.word) | flags;
    assert PtrOf(w) == PtrOf(s.word) && FlagsOf(w) == flags;
    assert w & HAS_DATA == flags & HAS_DATA;
  }

  predicate BeginOf(a: Act, i: nat) { a.Begin? && a.i == i }

  /** The flags and the mask of a call under way are those it was begun with. */
  lemma {:induction false} BegunWith(s: Slot, acts: seq<Act>, i: nat) returns (k: int)
    requires IsRun(s, acts) && Busy(After(s, acts), i)
    ensures -1 <= k < |acts| && forall l :: k < l < |acts| ==> !BeginOf(acts[l], i)
    ensures var call := After(s, acts).clients[i].call.value;
            if k >= 0 then acts[k] == Begin(i, call.flags, call.mask)
            else Busy(s, i) && s.clients[i].call.value.flags == call.flags && s.clients[i].call.value.mask == call.mask
    decreases |acts|
  {
    hide Desired, FirstTry, IsFlags, OnlyMarks, PtrOf;
    k := -1;
    if acts != [] {
      var l := BegunWith(Next(s, acts[0]), acts[1..], i);
      k := if l >= 0 then l + 1 else if BeginOf(acts[0], i) then 0 else -1;
    }
  }

  /** Each exchange applies the flags and the mask of the last call that its client began. */
  lemma ExchangesAsCalled(s: Slot, acts: seq<Act>, i: nat) returns (k: nat)
    requires Start(s) && IsRun(s, acts) && Enabled(After(s, acts), Win(i))
    ensures k < |acts| && BeginOf(acts[k], i) && forall l :: k < l < |acts| ==> !BeginOf(acts[l], i)
    ensures var slot := ViewOf(After(s, acts)).slot;
            ViewOf(Next(After(s, acts), Win(i))).slot.flags == Masked(slot.flags, acts[k].flags, acts[k].mask)
  {
    var l := BegunWith(s, acts, i);
    k := l;
    StartInv(s);
    Linearizable(s, acts);
    hide Start, Inv, IsRun, After, Masked, FlagsOf, PtrOf;
    StepRefines(After(s, acts), Win(i));
  }

  /** What Swap returns at the end of any run: the flags and the buffer that the exchanges
      completed before it, each carried out in one atomic step, have left in the slot. */
  lemma SwapReturns(s: Slot, acts: seq<Act>, i: nat)
    requires Inv(s) && IsRun(s, acts) && Enabled(After(s, acts), Win(i))
    ensures var e, found := After(s, acts), Performed(ViewOf(s), Atoms(s, acts)).slot;
            && FlagsOf(e.clients[i].call.value.expected) == found.flags
            && Next(e, Win(i)).clients[i].buffer == found.buffer
  {
    Linearizable(s, acts);
    hide FlagsOf, PtrOf, Inv, Performed, Atoms, After, IsRun;
  }

  /** The loop makes somebody progress: after a failed exchange the client's next one can succeed,
      whatever happens in between, unless another client's exchange has succeeded or the flags
      were changed. */
  lemma LoseThenWin(s: Slot, i: nat, acts: seq<Act>)
    requires Enabled(s, Lose(i)) && IsRun(Next(s, Lose(i)), acts)
    requires forall a :: a in acts ==> !a.Win? && !a.Mark?
    ensures Enabled(After(Next(s, Lose(i)), acts), Win(i))
  {
    hide Desired;
    StillExpected(Next(s, Lose(i)), i, acts);
  }

  lemma {:induction false} StillExpected(s: Slot, i: nat, acts: seq<Act>)
    requires Enabled(s, Win(i)) && IsRun(s, acts) && forall a :: a in acts ==> !a.Win? && !a.Mark?
    ensures Enabled(After(s, acts), Win(i))
    decreases |acts|
  {
    hide Desired, FirstTry;
    if acts != [] {
      assert acts[0] in acts;
      StillExpected(Next(s, acts[0]), i, acts[1..]);
    }
  }

  // ---- Buffers are neither lost nor shared ----

  function Owned(v: View): multiset<Word> { multiset{v.slot.buffer} + multiset(v.buffers) }

  lemma AtomOwned(v: View, a: Atom)
    ensures Owned(Atomic(v, a)) == Owned(v)
  {
    hide Masked;
    if a.Exchange? && a.i < |v.buffers| {
      var b := v.buffers;
      assert multiset(b[a.i := v.slot.buffer]) == multiset(b) - multiset{b[a.i]} + multiset{v.slot.buffer};
    }
  }

  lemma {:induction false} PerformedOwned(v: View, atoms: seq<Atom>)
    ensures Owned(Performed(v, atoms)) == Owned(v)
    decreases |atoms|
  {
    hide Owned, Atomic;
    if atoms != [] {
      AtomOwned(v, atoms[0]);
      PerformedOwned(Atomic(v, atoms[0]), atoms[1..]);
    }
  }

  /** The buffers of the slot and the clients are, at every moment, those of the beginning in
      some order. */
  lemma BuffersPermuted(s: Slot, acts: seq<Act>)
    requires Start(s) && IsRun(s, acts)
    ensures Owned(ViewOf(After(s, acts))) == Owned(ViewOf(s))
  {
    hide Start, Owned, ViewOf, After, IsRun, Atoms, Performed;
    StartInv(s);
    Linearizable(s, acts);
    PerformedOwned(ViewOf(s), Atoms(s, acts));
  }
}
