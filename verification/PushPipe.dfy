/**
 * VBIDevice.java, push mode: one producer (pushBytes) and any number of readers (readVBILine) over
 * a 1024-byte pipe and a monitor. Every step a thread takes between two points where another
 * thread may run is one action: a check, entering the monitor, one byte read or written. The monitor
 * is left with the last thing done in it.
 */
module PushPipe {

  type Int32 = x: int | -0x8000_0000 <= x < 0x8000_0000
  type Octet = x: int | 0 <= x < 256

  datatype Item = Item(c1: Int32, c2: Int32)

  const CAPACITY := 1024   // buffer of PipedInputStream
  const ENOUGH := 1000     // the available() check outside the monitor
  const MAX_BUFFER := 1024

  // ---------- DataOutputStream.writeInt and DataInputStream.readInt ----------

  function EncodeInt(v: Int32): (b: seq<Octet>)
    ensures |b| == 4
  {
    var u: int := v % 0x1_0000_0000;
    var b0: int, b1: int, b2: int, b3: int := u / 0x100_0000, u / 0x1_0000 % 256, u / 0x100 % 256, u % 256;
    [b0, b1, b2, b3]
  }

  function DecodeInt(b: seq<Octet>): Int32
    requires |b| == 4
  {
    var u := b[0] as int * 0x100_0000 + b[1] as int * 0x1_0000 + b[2] as int * 0x100 + b[3] as int;
    if u >= 0x8000_0000 then u - 0x1_0000_0000 else u
  }

  function Encode(i: Item): (b: seq<Octet>)
    ensures |b| == 8
  {
    EncodeInt(i.c1) + EncodeInt(i.c2)
  }

  function Decode(b: seq<Octet>): Item
    requires |b| == 8
  {
    Item(DecodeInt(b[..4]), DecodeInt(b[4..]))
  }

  lemma {:induction false} IntRoundTrip(v: Int32)
    ensures DecodeInt(EncodeInt(v)) == v
  {
    var u: int := v % 0x1_0000_0000;
    assert u / 0x100 == u / 0x1_0000 * 256 + u / 0x100 % 256 by { assert u / 0x100 / 256 == u / 0x1_0000; }
    assert u / 0x1_0000 == u / 0x100_0000 * 256 + u / 0x1_0000 % 256 by { assert u / 0x1_0000 / 256 == u / 0x100_0000; }
  }

  lemma {:induction false} ItemRoundTrip(i: Item)
    ensures Decode(Encode(i)) == i
  {
    hide EncodeInt, DecodeInt;
    IntRoundTrip(i.c1);
    IntRoundTrip(i.c2);
    assert Encode(i)[..4] == EncodeInt(i.c1) && Encode(i)[4..] == EncodeInt(i.c2);
  }

  // ---------- the protocol ----------

  /** Where pushBytes(item) is: past the check, in the monitor, dropping a pair, writing its own. */
  datatype Producer =
    | Idle
    | Waiting(item: Item)
    | Checking(item: Item)
    | Dropping(item: Item, got: seq<Octet>)
    | Writing(item: Item, sent: nat)

  datatype Reader = Away | AtMonitor | Reading(got: seq<Octet>)

  datatype Owner = Free | ByProducer | ByReader(id: nat)

  /** What became of a pair that left the pipe. */
  datatype Fate = Delivered(id: nat, item: Item) | Dropped(item: Item)

  /** pushed and fates are the history; readsSince counts the pairs delivered since the last check. */
  datatype State = State(bufferSize: int, pipe: seq<Octet>, producer: Producer, readers: map<nat, Reader>,
                         owner: Owner, pushed: seq<Item>, fates: seq<Fate>, readsSince: nat)

  function Start(bufferSize: int, ids: set<nat>): State {
    State(bufferSize, [], Idle, map id | id in ids :: Away, Free, [], [], 0)
  }

  datatype Action =
    | Push(item: Item)
    | EnterMonitor
    | CheckAgain
    | DropByte
    | WriteByte
    | CallRead(id: nat)
    | ReaderEnter(id: nat)
    | ReadByte(id: nat)
    | SetBufferSize(size: int)

  datatype Next = Blocked | Then(state: State)

  /** Blocked: the thread is not at this point, or waits for the monitor, for data or for room. */
  function Step(s: State, a: Action): Next {
    match a
    case Push(item) =>
      if !s.producer.Idle? then Blocked
      else Then(s.(producer := if |s.pipe| >= ENOUGH then Waiting(item) else Writing(item, 0),
                   pushed := s.pushed + [item], readsSince := 0))
    case EnterMonitor =>
      if !s.producer.Waiting? || s.owner != Free then Blocked
      else Then(s.(producer := Checking(s.producer.item), owner := ByProducer))
    case CheckAgain =>
      if !s.producer.Checking? then Blocked
      else if |s.pipe| >= s.bufferSize then Then(s.(producer := Dropping(s.producer.item, [])))
      else Then(s.(producer := Writing(s.producer.item, 0), owner := Free))
    case DropByte =>
      if !s.producer.Dropping? || s.pipe == [] then Blocked
      else
        var got := s.producer.got + [s.pipe[0]];
        var s' := s.(pipe := s.pipe[1..]);
        if |got| == 8 then
          Then(s'.(producer := Writing(s.producer.item, 0), owner := Free, fates := s.fates + [Dropped(Decode(got))]))
        else Then(s'.(producer := Dropping(s.producer.item, got)))
    case WriteByte =>
      if !s.producer.Writing? || s.producer.sent >= 8 || |s.pipe| >= CAPACITY then Blocked
      else
        var Writing(item, sent) := s.producer;
        Then(s.(pipe := s.pipe + [Encode(item)[sent]], producer := if sent == 7 then Idle else Writing(item, sent + 1)))
    case CallRead(id) =>
      if id !in s.readers || !s.readers[id].Away? then Blocked
      else Then(s.(readers := s.readers[id := AtMonitor]))
    case ReaderEnter(id) =>
      if id !in s.readers || !s.readers[id].AtMonitor? || s.owner != Free then Blocked
      else Then(s.(readers := s.readers[id := Reading([])], owner := ByReader(id)))
    case ReadByte(id) =>
      if id !in s.readers || !s.readers[id].Reading? || s.pipe == [] then Blocked
      else
        var got := s.readers[id].got + [s.pipe[0]];
        var s' := s.(pipe := s.pipe[1..]);
        if |got| == 8 then
          Then(s'.(readers := s.readers[id := Away], owner := Free, readsSince := s.readsSince + 1,
                   fates := s.fates + [Delivered(id, Decode(got))]))
        else Then(s'.(readers := s.readers[id := Reading(got)]))
    case SetBufferSize(size) => Then(s.(bufferSize := size))
  }

  function Run(s: State, actions: seq<Action>): Next
    decreases |actions|
  {
    if actions == [] then Then(s)
    else match Step(s, actions[0])
      case Blocked => Blocked
      case Then(s') => Run(s', actions[1..])
  }

  // ---------- the byte stream ----------

  function EncodeAll(items: seq<Item>): (b: seq<Octet>)
    ensures |b| == 8 * |items|
  {
    if items == [] then [] else EncodeAll(items[..|items| - 1]) + Encode(items[|items| - 1])
  }

  lemma {:induction false} EncodeAllAt(items: seq<Item>, j: nat)
    requires j < |items|
    ensures EncodeAll(items)[8 * j..8 * j + 8] == Encode(items[j])
  {
    hide Encode;
    var n := |items| - 1;
    if j < n {
      EncodeAllAt(items[..n], j);
      assert EncodeAll(items)[8 * j..8 * j + 8] == EncodeAll(items[..n])[8 * j..8 * j + 8];
    }
  }

  /** Bytes of the current or last pair already in the pipe. */
  function Written(s: State): int {
    match s.producer
    case Idle => 8 * |s.pushed|
    case Writing(_, sent) => 8 * (|s.pushed| - 1) + sent
    case _ => 8 * (|s.pushed| - 1)
  }

  /** Bytes taken by whoever holds the monitor. */
  function Partial(s: State): seq<Octet> {
    if s.producer.Dropping? then s.producer.got
    else if s.owner.ByReader? && s.owner.id in s.readers && s.readers[s.owner.id].Reading? then
      s.readers[s.owner.id].got
    else []
  }

  predicate MonitorHeld(s: State) {
    && (s.owner == ByProducer <==> s.producer.Checking? || s.producer.Dropping?)
    && (forall id :: id in s.readers ==> (s.readers[id].Reading? <==> s.owner == ByReader(id)))
    && (s.owner.ByReader? ==> s.owner.id in s.readers)
  }

  /** Pairs leave the pipe whole and in the order they were pushed; taken are the bytes in hand. */
  predicate Flow(pushed: seq<Item>, fates: seq<Fate>, taken: seq<Octet>, pipe: seq<Octet>, written: int) {
    && |taken| < 8 && |pipe| <= CAPACITY && |fates| <= |pushed|
    && 8 * |fates| + |taken| + |pipe| == written <= 8 * |pushed|
    && taken + pipe == EncodeAll(pushed)[8 * |fates|..written]
    && forall j :: 0 <= j < |fates| ==> fates[j].item == pushed[j]
  }

  predicate InOrder(s: State) {
    && (!s.producer.Idle? ==> s.pushed != [] && s.pushed[|s.pushed| - 1] == s.producer.item)
    && (s.producer.Writing? ==> s.producer.sent < 8)
    && Flow(s.pushed, s.fates, Partial(s), s.pipe, Written(s))
  }

  predicate Inv(s: State) { MonitorHeld(s) && InOrder(s) }

  lemma {:induction false} StartInv(bufferSize: int, ids: set<nat>)
    ensures Inv(Start(bufferSize, ids))
  {}

  /** Taking the eighth byte completes exactly the next pair of the stream. */
  lemma {:induction false} WholePair(
    pushed: seq<Item>, fates: seq<Fate>, got: seq<Octet>, rest: seq<Octet>, written: int)
    requires |fates| <= |pushed| && |got| == 8 && 8 * |fates| + 8 + |rest| == written <= 8 * |pushed|
    requires got + rest == EncodeAll(pushed)[8 * |fates|..written]
    ensures |fates| < |pushed| && Decode(got) == pushed[|fates|]
    ensures rest == EncodeAll(pushed)[8 * (|fates| + 1)..written]
  {
    hide Encode, Decode, EncodeAll;
    var f, all := |fates|, EncodeAll(pushed);
    var here := all[8 * f..written];
    EncodeAllAt(pushed, f);
    ItemRoundTrip(pushed[f]);
    assert got == (got + rest)[..8] == here[..8] == all[8 * f..8 * f + 8];
    assert rest == (got + rest)[8..] == here[8..] == all[8 * (f + 1)..written];
  }

  /** Taking one byte from the pipe. */
  lemma {:induction false} TakeByte(pushed: seq<Item>, fates: seq<Fate>, taken: seq<Octet>, pipe: seq<Octet>,
                                    written: int, fate: Fate)
    requires Flow(pushed, fates, taken, pipe, written) && pipe != []
    ensures var got := taken + [pipe[0]];
      if |got| < 8 then Flow(pushed, fates, got, pipe[1..], written)
      else fate.item == Decode(got) ==> Flow(pushed, fates + [fate], [], pipe[1..], written)
  {
    hide Encode, Decode, EncodeAll;
    var got, rest := taken + [pipe[0]], pipe[1..];
    assert got + rest == taken + pipe;
    if |got| == 8 {
      WholePair(pushed, fates, got, rest, written);
      assert [] + rest == rest;
    }
  }

  lemma {:induction false} PushInv(s: State, item: Item)
    requires Inv(s) && s.producer.Idle?
    ensures Inv(Step(s, Push(item)).state)
  {
    hide Encode, Decode, EncodeAll;
    var s' := Step(s, Push(item)).state;
    assert s'.pushed[..|s'.pushed| - 1] == s.pushed;
    assert EncodeAll(s'.pushed) == EncodeAll(s.pushed) + Encode(item) by { EncodeAllPush(s.pushed, item); }
    assert EncodeAll(s'.pushed)[8 * |s.fates|..Written(s)] == EncodeAll(s.pushed)[8 * |s.fates|..Written(s)];
  }

  lemma {:induction false} EncodeAllPush(items: seq<Item>, item: Item)
    ensures EncodeAll(items + [item]) == EncodeAll(items) + Encode(item)
  {
    assert (items + [item])[..|items|] == items;
  }

  lemma {:induction false} NextByte(s: State)
    requires InOrder(s) && s.producer.Writing?
    ensures var all, w := EncodeAll(s.pushed), Written(s);
      && w < |all| && all[w] == Encode(s.producer.item)[s.producer.sent]
      && all[8 * |s.fates|..w + 1] == all[8 * |s.fates|..w] + [all[w]]
  {
    hide Encode, EncodeAll;
    var n, all := |s.pushed|, EncodeAll(s.pushed);
    EncodeAllAt(s.pushed, n - 1);
    assert all[Written(s)] == all[8 * (n - 1)..8 * (n - 1) + 8][s.producer.sent];
  }

  lemma {:induction false} WriteInv(s: State)
    requires Inv(s) && s.producer.Writing? && |s.pipe| < CAPACITY
    ensures Inv(Step(s, WriteByte).state)
  {
    hide Encode, EncodeAll;
    NextByte(s);
    var s', all, w := Step(s, WriteByte).state, EncodeAll(s.pushed), Written(s);
    assert Written(s') == w + 1;
    assert Partial(s') + s'.pipe == (Partial(s) + s.pipe) + [all[w]];
  }

  lemma {:induction false} DropInv(s: State)
    requires Inv(s) && s.producer.Dropping? && s.pipe != []
    ensures Inv(Step(s, DropByte).state)
  {
    hide Decode, Flow;
    var got := s.producer.got + [s.pipe[0]];
    assert |s.producer.got| < 8 by { HandSize(s); }
    TakeByte(s.pushed, s.fates, s.producer.got, s.pipe, Written(s),
             Dropped(if |got| == 8 then Decode(got) else s.producer.item));
  }

  lemma {:induction false} HandSize(s: State)
    requires InOrder(s)
    ensures |Partial(s)| < 8
  {}

  lemma {:induction false} ReadInv(s: State, id: nat)
    requires Inv(s) && id in s.readers && s.readers[id].Reading? && s.pipe != []
    ensures Inv(Step(s, ReadByte(id)).state)
  {
    hide Decode, Flow;
    var taken := s.readers[id].got;
    var got := taken + [s.pipe[0]];
    assert |taken| < 8 by { HandSize(s); }
    TakeByte(s.pushed, s.fates, taken, s.pipe, Written(s),
             Delivered(id, if |got| == 8 then Decode(got) else Item(0, 0)));
  }

  lemma {:induction false} StepInv(s: State, a: Action)
    requires Inv(s) && Step(s, a).Then?
    ensures Inv(Step(s, a).state)
  {
    hide Encode, Decode, EncodeAll, Flow;
    match a {
      case Push(item) => PushInv(s, item);
      case WriteByte => WriteInv(s);
      case DropByte => DropInv(s);
      case ReadByte(id) => ReadInv(s, id);
      case _ =>
    }
  }

  // ---------- safety ----------

  ghost predicate Subsequence(x: seq<Item>, y: seq<Item>)
    decreases |y|
  {
    x == [] || (y != [] && ((x[0] == y[0] && Subsequence(x[1..], y[1..])) || Subsequence(x, y[1..])))
  }

  /** The pairs readers got, in the order in which they got them. */
  function DeliveredItems(fates: seq<Fate>): seq<Item> {
    if fates == [] then []
    else (if fates[0].Delivered? then [fates[0].item] else []) + DeliveredItems(fates[1..])
  }

  lemma {:induction false} DeliveredInOrder(fates: seq<Fate>, pushed: seq<Item>)
    requires |fates| <= |pushed| && forall j :: 0 <= j < |fates| ==> fates[j].item == pushed[j]
    ensures Subsequence(DeliveredItems(fates), pushed)
  {
    if fates != [] {
      DeliveredInOrder(fates[1..], pushed[1..]);
      var x := DeliveredItems(fates);
      if fates[0].Delivered? {
        assert x[0] == pushed[0] && x[1..] == DeliveredItems(fates[1..]);
      } else {
        assert x == DeliveredItems(fates[1..]);
      }
    }
  }

  lemma {:induction false} RunInv(s: State, actions: seq<Action>)
    requires Inv(s) && Run(s, actions).Then?
    ensures Inv(Run(s, actions).state)
    decreases |actions|
  {
    hide Inv, Step;
    if actions != [] {
      StepInv(s, actions[0]);
      RunInv(Step(s, actions[0]).state, actions[1..]);
    }
  }

  /**
   * Over all interleavings and buffer sizes: what readers get is an order-preserving subsequence of
   * what was pushed, never halves of two pairs; and every pair pushed is delivered, dropped, or still
   * in the pipe or in the hands of the producer or the monitor's owner.
   */
  lemma {:induction false} PipeSafety(bufferSize: int, ids: set<nat>, actions: seq<Action>)
    requires Run(Start(bufferSize, ids), actions).Then?
    ensures var s := Run(Start(bufferSize, ids), actions).state;
      && Subsequence(DeliveredItems(s.fates), s.pushed)
      && |s.fates| <= |s.pushed| && (forall j :: 0 <= j < |s.fates| ==> s.fates[j].item == s.pushed[j])
      && 8 * |s.fates| <= Written(s) <= 8 * |s.pushed|
      && Partial(s) + s.pipe == EncodeAll(s.pushed)[8 * |s.fates|..Written(s)]
  {
    hide Run, EncodeAll, Subsequence, DeliveredItems;
    StartInv(bufferSize, ids);
    RunInv(Start(bufferSize, ids), actions);
    var s := Run(Start(bufferSize, ids), actions).state;
    DeliveredInOrder(s.fates, s.pushed);
  }

  // ---------- when the producer blocks on the pipe ----------

  /** Waiting for room to write or for bytes to drop. */
  predicate BlockedOnPipe(s: State) {
    (s.producer.Writing? && |s.pipe| >= CAPACITY) || (s.producer.Dropping? && s.pipe == [])
  }

  predicate SizeInRange(size: int) { 1 <= size <= MAX_BUFFER }

  /** Room is left for the pair being written, and bytes are left of the pair being dropped. */
  predicate Roomy(s: State) {
    && SizeInRange(s.bufferSize)
    && (s.producer.Writing? ==> |s.pipe| <= CAPACITY - 8 + s.producer.sent)
    && (s.producer.Dropping? ==> |s.producer.got| + |s.pipe| >= 8)
  }

  predicate SizesInRange(actions: seq<Action>) {
    forall i :: 0 <= i < |actions| && actions[i].SetBufferSize? ==> SizeInRange(actions[i].size)
  }

  lemma {:induction false} StepRoomy(s: State, a: Action)
    requires Inv(s) && Roomy(s) && Step(s, a).Then?
    requires a.SetBufferSize? ==> SizeInRange(a.size)
    ensures Roomy(Step(s, a).state)
  {
    hide Encode, Decode, EncodeAll;
    if a.CheckAgain? {
      // nobody else is inside a pair, so the pipe holds whole pairs
      assert Partial(s) == [] && |s.pipe| == 8 * (|s.pushed| - 1 - |s.fates|);
    }
  }

  lemma {:induction false} RunRoomy(s: State, actions: seq<Action>)
    requires Inv(s) && Roomy(s) && SizesInRange(actions) && Run(s, actions).Then?
    ensures Roomy(Run(s, actions).state) && !BlockedOnPipe(Run(s, actions).state)
    decreases |actions|
  {
    if actions != [] {
      hide Inv, Roomy, Step, BlockedOnPipe;
      StepInv(s, actions[0]);
      StepRoomy(s, actions[0]);
      assert forall i :: 0 <= i < |actions[1..]| ==> actions[1..][i] == actions[i + 1];
      RunRoomy(Step(s, actions[0]).state, actions[1..]);
    }
  }

  /** With the buffer size kept between 1 and 1024 the producer never blocks on the pipe. */
  lemma {:induction false} ProducerNeverBlocksOnPipe(bufferSize: int, ids: set<nat>, actions: seq<Action>)
    requires SizeInRange(bufferSize) && SizesInRange(actions) && Run(Start(bufferSize, ids), actions).Then?
    ensures !BlockedOnPipe(Run(Start(bufferSize, ids), actions).state)
  {
    hide Run;
    StartInv(bufferSize, ids);
    RunRoomy(Start(bufferSize, ids), actions);
  }

  // ---------- the backlog ----------

  /** The check outside the monitor lets 999 bytes pass and a pair be added, the one inside whole pairs up to size. */
  function Bound(size: int): int {
    var pairs := (size + 7) / 8;
    if 8 * pairs > 1007 then 8 * pairs else 1007
  }

  /** What the pipe will hold once the pair in hand is written or dropped. */
  predicate Bounded(s: State, low: int, high: int) {
    && low <= s.bufferSize <= high
    && |s.pipe| <= Bound(high)
    && (s.producer.Writing? ==> |s.pipe| + 8 - s.producer.sent <= Bound(high))
    && (s.producer.Dropping? ==> low <= |s.producer.got| + |s.pipe| <= Bound(high))
  }

  predicate SizesWithin(actions: seq<Action>, low: int, high: int) {
    forall i :: 0 <= i < |actions| && actions[i].SetBufferSize? ==> low <= actions[i].size <= high
  }

  lemma {:induction false} StepBounded(s: State, a: Action, low: int, high: int)
    requires Inv(s) && Bounded(s, low, high) && Step(s, a).Then?
    requires a.SetBufferSize? ==> low <= a.size <= high
    ensures Bounded(Step(s, a).state, low, high)
  {
    hide Encode, Decode, EncodeAll;
    if a.CheckAgain? { assert |s.pipe| == 8 * (|s.pushed| - 1 - |s.fates|); }
  }

  lemma {:induction false} RunBounded(s: State, actions: seq<Action>, low: int, high: int)
    requires Inv(s) && Bounded(s, low, high) && SizesWithin(actions, low, high) && Run(s, actions).Then?
    ensures Bounded(Run(s, actions).state, low, high)
    decreases |actions|
  {
    hide Inv, Bounded, Step;
    if actions != [] {
      StepInv(s, actions[0]);
      StepBounded(s, actions[0], low, high);
      assert forall i :: 0 <= i < |actions[1..]| ==> actions[1..][i] == actions[i + 1];
      RunBounded(Step(s, actions[0]).state, actions[1..], low, high);
    }
  }

  /**
   * While sizes stay between low and high the pipe never holds more than 1007 bytes, or the pairs that
   * high rounds up to, and a pair is dropped only from a backlog of at least low bytes.
   */
  lemma {:induction false} BacklogIsBounded(bufferSize: int, ids: set<nat>, actions: seq<Action>, low: int, high: int)
    requires low <= bufferSize <= high && SizesWithin(actions, low, high)
    requires Run(Start(bufferSize, ids), actions).Then?
    ensures var s := Run(Start(bufferSize, ids), actions).state;
      && (|s.pipe| <= 1007 || |s.pipe| < high + 8)
      && (s.producer.Dropping? ==> |s.producer.got| + |s.pipe| >= low)
  {
    hide Run, Inv;
    StartInv(bufferSize, ids);
    RunBounded(Start(bufferSize, ids), actions, low, high);
  }

  // ---------- deadlock ----------

  /** A reader waits for data inside the monitor for which the producer waits. */
  predicate Deadlocked(s: State) { s.producer.Waiting? && s.owner.ByReader? && s.pipe == [] }

  /** Since the check, every byte that left the pipe is in a pair delivered or in hand. */
  predicate Accounted(s: State) {
    s.producer.Waiting? ==> |s.pipe| + |Partial(s)| + 8 * s.readsSince >= ENOUGH
  }

  lemma {:induction false} StepAccounted(s: State, a: Action)
    requires Inv(s) && Accounted(s) && Step(s, a).Then?
    ensures Accounted(Step(s, a).state)
  {
    hide Encode, Decode, EncodeAll;
  }

  lemma {:induction false} RunAccounted(s: State, actions: seq<Action>)
    requires Inv(s) && Accounted(s) && Run(s, actions).Then?
    ensures Accounted(Run(s, actions).state)
    decreases |actions|
  {
    hide Inv, Accounted, Step;
    if actions != [] {
      StepInv(s, actions[0]);
      StepAccounted(s, actions[0]);
      RunAccounted(Step(s, actions[0]).state, actions[1..]);
    }
  }

  /** Deadlock needs 125 whole pairs delivered between the producer's check and its entry. */
  lemma {:induction false} DeadlockNeeds125Reads(bufferSize: int, ids: set<nat>, actions: seq<Action>)
    requires Run(Start(bufferSize, ids), actions).Then? && Deadlocked(Run(Start(bufferSize, ids), actions).state)
    ensures Run(Start(bufferSize, ids), actions).state.readsSince >= 125
  {
    hide Run, EncodeAll;
    StartInv(bufferSize, ids);
    RunInv(Start(bufferSize, ids), actions);
    RunAccounted(Start(bufferSize, ids), actions);
    var s := Run(Start(bufferSize, ids), actions).state;
    assert |Partial(s)| == 8 * (|s.pushed| - 1 - |s.fates|);
  }

  /** A deadlock is for ever: no pair is pushed, delivered or dropped after it. */
  lemma {:induction false} DeadlockIsForEver(s: State, actions: seq<Action>)
    requires Inv(s) && Deadlocked(s) && Run(s, actions).Then?
    ensures var s' := Run(s, actions).state; Deadlocked(s') && s'.fates == s.fates && s'.pushed == s.pushed
    decreases |actions|
  {
    if actions != [] {
      StepInv(s, actions[0]);
      assert Deadlocked(Step(s, actions[0]).state);
      DeadlockIsForEver(Step(s, actions[0]).state, actions[1..]);
    }
  }

  /** What the producer does next. */
  function ProducerAction(s: State): Action
    requires !s.producer.Idle?
  {
    match s.producer
    case Waiting(_) => EnterMonitor
    case Checking(_) => CheckAgain
    case Dropping(_, _) => DropByte
    case Writing(_, _) => WriteByte
  }

  /** Short of a deadlock the producer, or the reader it waits for, can take its next step. */
  lemma {:induction false} OnlyDeadlockStops(s: State)
    requires Inv(s) && Roomy(s) && !s.producer.Idle?
    ensures Deadlocked(s)
        || Step(s, ProducerAction(s)).Then?
        || (s.owner.ByReader? && Step(s, ReadByte(s.owner.id)).Then?)
  {
    hide Encode, Decode, EncodeAll;
  }
}
