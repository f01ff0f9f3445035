/** One output port and one input port on a slot (ck_lab/Port.h): an output port pushes when it
    has seen that the slot is needed and holds no data, an input port pulls when it has seen
    data. The flags other than HAS_DATA may change at any moment. */
module PortChannel {
  import opened PortSlot

  type Chunk(!new)

  datatype Address = Address(word: Word)

  const OUT: nat := 0
  const IN: nat := 1

  datatype OutPc =
    | OutIdle
    | Clear        // CanPush returned true
    | Pushing      // in the loop of Swap

  datatype InPc =
    | InIdle
    | Seen         // HasData returned true
    | Pulling(setNotNeeded: bool)  // in the loop of Swap
    | Holding      // Swap returned, the chunk is about to be moved out

  /** `store`: what each buffer holds. `sent` and `received` are history: the chunks of the
      pushes whose exchange took place, and the chunks that pulls returned. */
  datatype Channel = Channel(
    slot: Slot,
    store: map<Address, Chunk>,
    out: OutPc,
    inp: InPc,
    sent: seq<Chunk>,
    received: seq<Chunk>)

  /** `Swap`: a step of module PortSlot inside a running Push or Pull, or a change of flags.
      `Take` leaves some chunk or other behind in the buffer. */
  datatype Deed =
    | Look | Push(chunk: Chunk)
    | Peek | Pull(setNotNeeded: bool) | Take(rest: Chunk)
    | Swap(act: Act)

  predicate Needed(w: Word) { w & IS_NEEDED != 0 }

  function PullMask(setNotNeeded: bool): Word { if setNotNeeded then HAS_DATA | IS_NEEDED else HAS_DATA }

  predicate Two(c: Channel) { |c.slot.clients| == 2 }

  predicate Can(c: Channel, d: Deed) {
    Two(c) &&
    match d
    case Look => c.out.OutIdle? && Needed(c.slot.word) && !HasData(c.slot.word)
    case Push(_) => c.out.Clear? && Enabled(c.slot, Begin(OUT, HAS_DATA, HAS_DATA))
    case Peek => c.inp.InIdle? && HasData(c.slot.word)
    case Pull(setNotNeeded) => c.inp.Seen? && Enabled(c.slot, Begin(IN, 0, PullMask(setNotNeeded)))
    case Take(_) => c.inp.Holding? && Address(c.slot.clients[IN].buffer) in c.store
    case Swap(a) =>
      && !a.Begin? && Enabled(c.slot, a)
      && (a == Win(OUT) ==> Address(c.slot.clients[OUT].buffer) in c.store)
  }

  function Do(c: Channel, d: Deed): Channel
    requires Can(c, d)
  {
    match d
    case Look => c.(out := Clear)
    case Push(chunk) =>
      c.(store := c.store[Address(c.slot.clients[OUT].buffer) := chunk],
         slot := Next(c.slot, Begin(OUT, HAS_DATA, HAS_DATA)), out := Pushing)
    case Peek => c.(inp := Seen)
    case Pull(setNotNeeded) =>
      c.(slot := Next(c.slot, Begin(IN, 0, PullMask(setNotNeeded))), inp := Pulling(setNotNeeded))
    case Take(rest) =>
      var b := Address(c.slot.clients[IN].buffer);
      c.(received := c.received + [c.store[b]], store := c.store[b := rest], inp := InIdle)
    case Swap(a) =>
      var s := Next(c.slot, a);
      if a == Win(OUT) then
        c.(slot := s, out := OutIdle, sent := c.sent + [c.store[Address(c.slot.clients[OUT].buffer)]])
      else if a == Win(IN) then c.(slot := s, inp := Holding)
      else c.(slot := s)
  }

  predicate IsHistory(c: Channel, deeds: seq<Deed>)
    decreases |deeds|
  {
    deeds == [] || (Can(c, deeds[0]) && IsHistory(Do(c, deeds[0]), deeds[1..]))
  }

  function Outcome(c: Channel, deeds: seq<Deed>): Channel
    requires IsHistory(c, deeds)
    decreases |deeds|
  {
    if deeds == [] then c else Outcome(Do(c, deeds[0]), deeds[1..])
  }

  // ---- Bits ----

  lemma MaskBits(setNotNeeded: bool)
    ensures IsFlags(HAS_DATA) && IsFlags(0) && IsFlags(PullMask(setNotNeeded))
  {
  }

  lemma PushedBits(w: Word, buffer: Word)
    ensures HasData(Desired(w, HAS_DATA, HAS_DATA, buffer))
  {
    var d := Desired(w, HAS_DATA, HAS_DATA, buffer);
    assert d & HAS_DATA == HAS_DATA;
  }

  lemma PulledBits(w: Word, buffer: Word, setNotNeeded: bool)
    requires IsBuffer(buffer)
    ensures !HasData(Desired(w, 0, PullMask(setNotNeeded), buffer))
  {
    assert buffer & HAS_DATA == (buffer & FLAGS_MASK) & HAS_DATA;
    assert Desired(w, 0, PullMask(setNotNeeded), buffer) & HAS_DATA == buffer & HAS_DATA;
  }

  predicate Finished(w: Word) { w & IS_FINISHED != 0 }

  /** The other two flags through a pull, and through a push. */
  predicate PullMarks(w: Word, w': Word, setNotNeeded: bool) {
    (Needed(w') <==> Needed(w) && !setNotNeeded) && (Finished(w') <==> Finished(w))
  }

  predicate SameMarks(w: Word, w': Word) { Needed(w') == Needed(w) && Finished(w') == Finished(w) }

  lemma BufferBits(buffer: Word)
    requires IsBuffer(buffer)
    ensures buffer & IS_NEEDED == 0 && buffer & IS_FINISHED == 0
  {
    assert buffer & IS_NEEDED == (buffer & FLAGS_MASK) & IS_NEEDED;
    assert buffer & IS_FINISHED == (buffer & FLAGS_MASK) & IS_FINISHED;
  }

  lemma PushedMarks(w: Word, buffer: Word)
    requires IsBuffer(buffer)
    ensures SameMarks(w, Desired(w, HAS_DATA, HAS_DATA, buffer))
  {
    BufferBits(buffer);
    var d := Desired(w, HAS_DATA, HAS_DATA, buffer);
    assert d & IS_NEEDED == (w & IS_NEEDED) | (buffer & IS_NEEDED);
    assert d & IS_FINISHED == (w & IS_FINISHED) | (buffer & IS_FINISHED);
  }

  lemma PulledMarks(w: Word, buffer: Word, setNotNeeded: bool)
    requires IsBuffer(buffer)
    ensures PullMarks(w, Desired(w, 0, PullMask(setNotNeeded), buffer), setNotNeeded)
  {
    BufferBits(buffer);
    var d := Desired(w, 0, PullMask(setNotNeeded), buffer);
    assert d & IS_FINISHED == (w & IS_FINISHED) | (buffer & IS_FINISHED);
    if setNotNeeded {
      assert d & IS_NEEDED == buffer & IS_NEEDED;
    } else {
      assert d & IS_NEEDED == (w & IS_NEEDED) | (buffer & IS_NEEDED);
    }
  }

  // ---- The invariant ----

  ghost predicate CallsOk(c: Channel) {
    Two(c) &&
    var o, i := c.slot.clients[OUT].call, c.slot.clients[IN].call;
    && (c.out.Pushing? <==> o.Some?) && (o.Some? ==> o.value.flags == HAS_DATA && o.value.mask == HAS_DATA)
    && (c.inp.Pulling? <==> i.Some?)
    && (i.Some? && c.inp.Pulling? ==> i.value.flags == 0 && i.value.mask == PullMask(c.inp.setNotNeeded))
  }

  ghost predicate BuffersOk(c: Channel) {
    Two(c) &&
    var s, o, i := PtrOf(c.slot.word), c.slot.clients[OUT].buffer, c.slot.clients[IN].buffer;
    s != o && s != i && o != i && Address(s) in c.store && Address(o) in c.store && Address(i) in c.store
  }

  /** Only the output port sets HAS_DATA and only the input port clears it, so what either has
      seen stays true until it acts. */
  ghost predicate GuardsOk(c: Channel) {
    && (c.out.Clear? || c.out.Pushing? ==> !HasData(c.slot.word))
    && (c.inp.Seen? || c.inp.Pulling? ==> HasData(c.slot.word))
  }

  function InHand(c: Channel): seq<Chunk>
    requires Two(c)
  {
    var b := Address(c.slot.clients[IN].buffer);
    if c.inp.Holding? && b in c.store then [c.store[b]] else []
  }

  function InSlot(c: Channel): seq<Chunk> {
    var b := Address(PtrOf(c.slot.word));
    if HasData(c.slot.word) && b in c.store then [c.store[b]] else []
  }

  ghost predicate ChunksOk(c: Channel) { Two(c) && c.sent == (c.received + InHand(c)) + InSlot(c) }

  ghost predicate ChannelInv(c: Channel) {
    Inv(c.slot) && CallsOk(c) && BuffersOk(c) && GuardsOk(c) && ChunksOk(c)
  }

  ghost predicate Fresh(c: Channel) {
    && Start(c.slot) && BuffersOk(c)
    && c.out.OutIdle? && c.inp.InIdle? && c.sent == [] && c.received == []
  }

  lemma FreshInv(c: Channel)
    requires Fresh(c)
    ensures ChannelInv(c)
  {
    hide IsBuffer, PtrOf, HasData;
    StartInv(c.slot);
    BufferEmpty(c.slot.word);
  }

  /** The word and the buffers after a step of the slot. */
  lemma WinWord(c: Channel, i: nat)
    requires ChannelInv(c) && Enabled(c.slot, Win(i))
    ensures i == OUT || i == IN
    ensures var s, t := c.slot, Next(c.slot, Win(i));
            && PtrOf(t.word) == s.clients[i].buffer && t.clients[i].buffer == PtrOf(s.word)
            && (i == OUT ==> c.out.Pushing? && HasData(t.word))
            && (i == IN ==> c.inp.Pulling? && !HasData(t.word))
  {
    hide HasData, PtrOf, FlagsOf, IsBuffer, IsFlags, Desired, Masked;
    var w, b := c.slot.word, c.slot.clients[i].buffer;
    var call := c.slot.clients[i].call.value;
    DesiredBits(w, call.flags, call.mask, b);
    if i == OUT {
      PushedBits(w, b);
    } else {
      PulledBits(w, b, c.inp.setNotNeeded);
    }
  }

  /** What a push and a pull make of the flags: a push leaves IS_NEEDED and IS_FINISHED alone, and
      so does a pull, but for clearing IS_NEEDED if it was asked to. */
  lemma WinMarks(c: Channel, i: nat)
    requires ChannelInv(c) && Enabled(c.slot, Win(i))
    ensures var w, w' := c.slot.word, Next(c.slot, Win(i)).word;
            && (i == OUT ==> SameMarks(w, w'))
            && (i == IN ==>
                  c.inp.Pulling? && PullMarks(w, w', c.inp.setNotNeeded))
  {
    hide HasData, PtrOf, FlagsOf, IsBuffer, IsFlags, Desired, Masked, SameMarks, PullMarks;
    var w, b := c.slot.word, c.slot.clients[i].buffer;
    if i == OUT {
      PushedMarks(w, b);
    } else if i == IN {
      PulledMarks(w, b, c.inp.setNotNeeded);
    }
  }

  lemma SwapInv(c: Channel, a: Act)
    requires ChannelInv(c) && Can(c, Swap(a))
    ensures ChannelInv(Do(c, Swap(a)))
  {
    hide HasData, PtrOf, FlagsOf, IsBuffer, IsFlags, Desired, Masked;
    StepInv(c.slot, a);
    hide Inv;
    if a.Win? {
      WinWord(c, a.i);
    }
  }

  lemma PushInv(c: Channel, chunk: Chunk)
    requires ChannelInv(c) && Can(c, Push(chunk))
    ensures ChannelInv(Do(c, Push(chunk)))
  {
    hide HasData, PtrOf, FlagsOf, IsBuffer, IsFlags, Desired, Masked, FirstTry, Needed;
    var t := Do(c, Push(chunk));
    StepInv(c.slot, Begin(OUT, HAS_DATA, HAS_DATA));
    assert t.slot.clients[IN] == c.slot.clients[IN] && t.slot.word == c.slot.word;
    assert CallsOk(t) && BuffersOk(t) && GuardsOk(t);
    assert InHand(t) == InHand(c) && InSlot(t) == InSlot(c);
  }

  lemma DeedInv(c: Channel, d: Deed)
    requires ChannelInv(c) && Can(c, d)
    ensures ChannelInv(Do(c, d))
  {
    hide HasData, PtrOf, FlagsOf, IsBuffer, IsFlags, Desired, Masked, FirstTry, Needed;
    match d
    case Look =>
    case Push(chunk) => PushInv(c, chunk);
    case Peek =>
    case Pull(setNotNeeded) => StepInv(c.slot, Begin(IN, 0, PullMask(setNotNeeded)));
    case Take(rest) =>
    case Swap(a) => SwapInv(c, a);
  }

  lemma {:induction false} HistoryInv(c: Channel, deeds: seq<Deed>)
    requires ChannelInv(c) && IsHistory(c, deeds)
    ensures ChannelInv(Outcome(c, deeds))
    decreases |deeds|
  {
    hide ChannelInv, Can, Do;
    if deeds != [] {
      DeedInv(c, deeds[0]);
      HistoryInv(Do(c, deeds[0]), deeds[1..]);
    }
  }

  // ---- Exactly once ----

  /** In every run the chunks sent are, in order, those received, then the one that the input
      port has exchanged but not yet moved out, then the one in the slot. */
  lemma ExactlyOnce(c: Channel, deeds: seq<Deed>)
    requires Fresh(c) && IsHistory(c, deeds)
    ensures var e := Outcome(c, deeds);
            && Two(e) && e.sent == (e.received + InHand(e)) + InSlot(e)
            && |InHand(e)| == (if e.inp.Holding? then 1 else 0)
            && |InSlot(e)| == (if HasData(e.slot.word) then 1 else 0)
  {
    FreshInv(c);
    HistoryInv(c, deeds);
    hide HasData, PtrOf, Inv;
  }

  /** The assertions of Push and Pull on the flags that Swap returned (lines 94 and 107): a push
      found no data, a pull found some. */
  lemma FlagsAsserted(c: Channel, deeds: seq<Deed>)
    requires Fresh(c) && IsHistory(c, deeds)
    ensures var e := Outcome(c, deeds);
            && (Enabled(e.slot, Win(OUT)) ==> !HasData(e.slot.clients[OUT].call.value.expected))
            && (Enabled(e.slot, Win(IN)) ==> HasData(e.slot.clients[IN].call.value.expected))
  {
    FreshInv(c);
    HistoryInv(c, deeds);
    hide HasData, PtrOf, Inv;
  }

  // ---- What calls go by ----

  lemma {:induction false} FrontHistory(c: Channel, deeds: seq<Deed>, k: nat)
    requires IsHistory(c, deeds) && k < |deeds|
    ensures IsHistory(c, deeds[..k])
    decreases |deeds|
  {
    hide Can, Do;
    if k > 0 {
      FrontHistory(Do(c, deeds[0]), deeds[1..], k - 1);
      assert deeds[..k][1..] == deeds[1..][..k - 1];
    }
  }

  lemma {:induction false} LastLook(c: Channel, deeds: seq<Deed>) returns (k: int)
    requires IsHistory(c, deeds) && !Outcome(c, deeds).out.OutIdle?
    ensures -1 <= k < |deeds| && (k == -1 ==> !c.out.OutIdle?)
    ensures forall l :: k < l < |deeds| ==> deeds[l] != Look
    ensures k >= 0 ==> deeds[k] == Look && IsHistory(c, deeds[..k]) && Can(Outcome(c, deeds[..k]), Look)
    decreases |deeds|
  {
    hide Needed, HasData;
    k := -1;
    if deeds != [] {
      var l := LastLook(Do(c, deeds[0]), deeds[1..]);
      if l >= 0 {
        k := l + 1;
        FrontHistory(c, deeds, k);
        assert deeds[..k][1..] == deeds[1..][..l];
      } else if deeds[0] == Look {
        k := 0;
        assert deeds[..k] == [];
      }
    }
  }

  /** A push is under way only after a look at the slot, the last one so far, that found the flag
      IS_NEEDED set and no data. */
  lemma PushesWhenNeeded(c: Channel, deeds: seq<Deed>) returns (k: nat)
    requires Fresh(c) && IsHistory(c, deeds) && !Outcome(c, deeds).out.OutIdle?
    ensures k < |deeds| && deeds[k] == Look && IsHistory(c, deeds[..k])
    ensures var w := Outcome(c, deeds[..k]).slot.word; Needed(w) && !HasData(w)
    ensures forall l :: k < l < |deeds| ==> deeds[l] != Look
  {
    hide Needed, HasData, BuffersOk;
    var l := LastLook(c, deeds);
    k := l;
  }

  /** The pull under way is the last one that was called, with its argument. */
  lemma {:induction false} LastPull(c: Channel, deeds: seq<Deed>) returns (k: nat)
    requires IsHistory(c, deeds) && Outcome(c, deeds).inp.Pulling? && !c.inp.Pulling?
    ensures k < |deeds| && deeds[k] == Pull(Outcome(c, deeds).inp.setNotNeeded)
    ensures forall l :: k < l < |deeds| ==> !deeds[l].Pull?
    decreases |deeds|
  {
    hide Needed, HasData;
    if Do(c, deeds[0]).inp.Pulling? {
      var more := NoOtherPull(Do(c, deeds[0]), deeds[1..]);
      k := if more >= 0 then more + 1 else 0;
    } else {
      var l := LastPull(Do(c, deeds[0]), deeds[1..]);
      k := l + 1;
    }
  }

  lemma {:induction false} NoOtherPull(c: Channel, deeds: seq<Deed>) returns (k: int)
    requires IsHistory(c, deeds) && Outcome(c, deeds).inp.Pulling?
    ensures -1 <= k < |deeds| && (forall l :: k < l < |deeds| ==> !deeds[l].Pull?)
    ensures if k >= 0 then deeds[k] == Pull(Outcome(c, deeds).inp.setNotNeeded) else Outcome(c, deeds).inp == c.inp
    decreases |deeds|
  {
    hide Needed, HasData;
    k := -1;
    if deeds != [] {
      var l := NoOtherPull(Do(c, deeds[0]), deeds[1..]);
      k := if l >= 0 then l + 1 else if deeds[0].Pull? then 0 else -1;
    }
  }

  /** In every history, whatever the other port and the other flags do: the exchange of a push
      leaves IS_NEEDED and IS_FINISHED as they are, and that of a pull leaves IS_FINISHED, and
      clears IS_NEEDED exactly if its last call asked for it. */
  lemma ExchangeMarks(c: Channel, deeds: seq<Deed>, i: nat) returns (k: nat)
    requires Fresh(c) && IsHistory(c, deeds) && Can(Outcome(c, deeds), Swap(Win(i)))
    ensures var w, w' := Outcome(c, deeds).slot.word, Do(Outcome(c, deeds), Swap(Win(i))).slot.word;
            && (i == OUT || i == IN) && (i == OUT ==> SameMarks(w, w'))
            && (i == IN ==>
                  && k < |deeds| && deeds[k].Pull? && (forall l :: k < l < |deeds| ==> !deeds[l].Pull?)
                  && PullMarks(w, w', deeds[k].setNotNeeded))
  {
    FreshInv(c);
    HistoryInv(c, deeds);
    WinMarks(Outcome(c, deeds), i);
    hide BuffersOk, SameMarks, PullMarks, Needed, HasData, ChunksOk;
    k := 0;
    if i == IN {
      var l := LastPull(c, deeds);
      k := l;
    }
  }

  // ---- Calls end ----

  lemma ThenHistory(c: Channel, d: Deed, deeds: seq<Deed>)
    requires Can(c, d) && IsHistory(Do(c, d), deeds)
    ensures IsHistory(c, [d] + deeds) && Outcome(c, [d] + deeds) == Outcome(Do(c, d), deeds)
  {
    hide Can, Do;
    assert ([d] + deeds)[1..] == deeds;
  }

  lemma NoHistory(c: Channel)
    ensures IsHistory(c, []) && Outcome(c, []) == c
  {
  }

  /** A port inside Swap whose exchange fails can succeed the next time. */
  lemma SwapEnds(c: Channel, i: nat) returns (t: Channel)
    requires ChannelInv(c) && (i == OUT ==> c.out.Pushing?) && (i == IN ==> c.inp.Pulling?) && (i == OUT || i == IN)
    ensures Can(c, Swap(Lose(i))) && Can(Do(c, Swap(Lose(i))), Swap(Win(i)))
    ensures t == Do(Do(c, Swap(Lose(i))), Swap(Win(i))) && ChannelInv(t) && t.received == c.received
    ensures i == OUT ==>
              t.out.OutIdle? && t.inp == c.inp && t.sent == c.sent + [c.store[Address(c.slot.clients[OUT].buffer)]]
    ensures i == IN ==> t.inp.Holding? && t.out == c.out && t.sent == c.sent
    ensures i == OUT ==> SameMarks(c.slot.word, t.slot.word)
    ensures i == IN ==> PullMarks(c.slot.word, t.slot.word, c.inp.setNotNeeded)
  {
    hide HasData, PtrOf, IsFlags, Desired, IsBuffer, SameMarks, PullMarks;
    t := Do(Do(c, Swap(Lose(i))), Swap(Win(i)));
    SwapInv(c, Lose(i));
    SwapInv(Do(c, Swap(Lose(i))), Win(i));
    WinMarks(Do(c, Swap(Lose(i))), i);
  }

  /** A push that may start ends with its chunk sent, if the other port stops. */
  lemma PushEnds(c: Channel, chunk: Chunk) returns (deeds: seq<Deed>)
    requires ChannelInv(c) && c.out.Clear?
    ensures IsHistory(c, deeds) && Outcome(c, deeds).out.OutIdle? && Outcome(c, deeds).sent == c.sent + [chunk]
    ensures SameMarks(c.slot.word, Outcome(c, deeds).slot.word)
  {
    PushStarts(c, chunk);
    PushInv(c, chunk);
    hide ChannelInv, Can, Do, IsHistory, Outcome, SameMarks;
    var c1 := Do(c, Push(chunk));
    var t := SwapEnds(c1, OUT);
    NoHistory(t);
    ThenHistory(Do(c1, Swap(Lose(OUT))), Swap(Win(OUT)), []);
    ThenHistory(c1, Swap(Lose(OUT)), [Swap(Win(OUT))] + []);
    deeds := [Push(chunk)] + ([Swap(Lose(OUT))] + ([Swap(Win(OUT))] + []));
    ThenHistory(c, Push(chunk), [Swap(Lose(OUT))] + ([Swap(Win(OUT))] + []));
  }

  lemma PushStarts(c: Channel, chunk: Chunk)
    requires ChannelInv(c) && c.out.Clear?
    ensures Can(c, Push(chunk))
    ensures var t := Do(c, Push(chunk));
            t.out.Pushing? && t.sent == c.sent && t.received == c.received && t.slot.word == c.slot.word
            && Address(t.slot.clients[OUT].buffer) in t.store && t.store[Address(t.slot.clients[OUT].buffer)] == chunk
  {
    hide HasData, PtrOf, IsFlags, Desired, FirstTry;
    MaskBits(true);
  }

  /** A pull that may start ends with the chunk in the slot received, if the other port stops. */
  lemma PullEnds(c: Channel, setNotNeeded: bool, rest: Chunk) returns (deeds: seq<Deed>)
    requires ChannelInv(c) && c.inp.Seen?
    ensures IsHistory(c, deeds) && Outcome(c, deeds).inp.InIdle? && Outcome(c, deeds).sent == c.sent
    ensures |InSlot(c)| == 1 && Outcome(c, deeds).received == c.received + InSlot(c)
    ensures PullMarks(c.slot.word, Outcome(c, deeds).slot.word, setNotNeeded)
  {
    PullStarts(c, setNotNeeded);
    DeedInv(c, Pull(setNotNeeded));
    hide ChannelInv, Can, Do, IsHistory, Outcome, InSlot, InHand, PullMarks;
    var c1 := Do(c, Pull(setNotNeeded));
    var t := SwapEnds(c1, IN);
    var e := TakeEnds(t, rest);
    NoHistory(e);
    ThenHistory(t, Take(rest), []);
    ThenHistory(Do(c1, Swap(Lose(IN))), Swap(Win(IN)), [Take(rest)] + []);
    ThenHistory(c1, Swap(Lose(IN)), [Swap(Win(IN))] + ([Take(rest)] + []));
    deeds := [Pull(setNotNeeded)] + ([Swap(Lose(IN))] + ([Swap(Win(IN))] + ([Take(rest)] + [])));
    ThenHistory(c, Pull(setNotNeeded), [Swap(Lose(IN))] + ([Swap(Win(IN))] + ([Take(rest)] + [])));
    SentIsReceived(c, e);
  }

  lemma PullStarts(c: Channel, setNotNeeded: bool)
    requires ChannelInv(c) && c.inp.Seen?
    ensures Can(c, Pull(setNotNeeded)) && |InSlot(c)| == 1 && InHand(c) == []
    ensures var t := Do(c, Pull(setNotNeeded));
            && t.inp == Pulling(setNotNeeded) && t.sent == c.sent && t.received == c.received
            && t.slot.word == c.slot.word
  {
    hide HasData, PtrOf, IsFlags, Desired, FirstTry;
    MaskBits(setNotNeeded);
  }

  lemma TakeEnds(c: Channel, rest: Chunk) returns (e: Channel)
    requires ChannelInv(c) && c.inp.Holding?
    ensures Can(c, Take(rest)) && e == Do(c, Take(rest)) && ChannelInv(e) && e.inp.InIdle? && e.sent == c.sent
    ensures e.slot.word == c.slot.word
    ensures |e.received| == |c.received| + 1
  {
    hide HasData, PtrOf, IsFlags, Desired, IsBuffer;
    e := Do(c, Take(rest));
    DeedInv(c, Take(rest));
  }

  /** Chunks leave in the order in which they were sent. */
  lemma SentIsReceived(c: Channel, e: Channel)
    requires ChannelInv(c) && ChannelInv(e) && e.sent == c.sent && InHand(c) == [] && |InSlot(c)| == 1
    requires |e.received| == |c.received| + 1
    ensures e.received == c.received + InSlot(c)
  {
    hide Inv, CallsOk, BuffersOk, GuardsOk, InHand, InSlot;
    var n := |c.received| + 1;
    assert e.sent[..n] == e.received;
    assert c.sent[..n] == c.received + InSlot(c);
  }
}
