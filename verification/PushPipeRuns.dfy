/** Runs that reach the bad states, so that the bounds proved in PushPipe are exact. */
module PushPipeRuns {
  import opened PushPipe

  predicate NoResize(actions: seq<Action>) {
    forall i :: 0 <= i < |actions| ==> !actions[i].SetBufferSize?
  }

  lemma {:induction false} RunThen(s: State, x: seq<Action>, y: seq<Action>)
    requires Run(s, x).Then?
    ensures Run(s, x + y) == Run(Run(s, x).state, y)
    decreases |x|
  {
    hide Step;
    if x == [] {
      assert x + y == y;
    } else {
      assert (x + y)[0] == x[0] && (x + y)[1..] == x[1..] + y;
      RunThen(Step(s, x[0]).state, x[1..], y);
    }
  }

  lemma {:induction false} RunSnoc(s: State, x: seq<Action>, a: Action)
    requires Run(s, x).Then?
    ensures Run(s, x + [a]) == Step(Run(s, x).state, a)
  {
    hide Step;
    RunThen(s, x, [a]);
    assert [a][1..] == [];
  }

  /** A pair being written gets all its bytes into the pipe if there is room. */
  lemma {:induction false} FinishWriting(s: State) returns (actions: seq<Action>, s': State)
    requires s.producer.Writing? && s.producer.sent < 8 && |s.pipe| + 8 - s.producer.sent <= CAPACITY
    ensures Run(s, actions) == Then(s') && NoResize(actions)
    ensures s' == s.(pipe := s'.pipe, producer := Idle) && |s'.pipe| == |s.pipe| + 8 - s.producer.sent
    decreases 8 - s.producer.sent
  {
    hide Encode;
    var s1 := Step(s, WriteByte).state;
    if s.producer.sent == 7 {
      actions, s' := [WriteByte], s1;
      assert actions[1..] == [];
    } else {
      var rest;
      rest, s' := FinishWriting(s1);
      actions := [WriteByte] + rest;
      assert actions[1..] == rest;
    }
  }

  /** One push that finds the pipe below the threshold, or above it but below the buffer size. */
  lemma {:induction false} PushOne(s: State, item: Item) returns (actions: seq<Action>, s': State)
    requires s.producer.Idle? && s.owner == Free && |s.pipe| + 8 <= CAPACITY
    requires |s.pipe| < ENOUGH || |s.pipe| < s.bufferSize
    ensures Run(s, actions) == Then(s') && NoResize(actions)
    ensures s' == s.(pipe := s'.pipe, pushed := s'.pushed, readsSince := s'.readsSince)
    ensures |s'.pipe| == |s.pipe| + 8
  {
    hide Encode, EncodeAll;
    var s1 := Step(s, Push(item)).state;
    var before := [Push(item)];
    assert before[1..] == [];
    if |s.pipe| >= ENOUGH {
      RunSnoc(s, before, EnterMonitor);
      RunSnoc(s, before + [EnterMonitor], CheckAgain);
      before := before + [EnterMonitor] + [CheckAgain];
      s1 := Run(s, before).state;
    }
    var rest;
    rest, s' := FinishWriting(s1);
    actions := before + rest;
    RunThen(s, before, rest);
  }

  /** n pushes in a row from an empty pipe. */
  lemma {:induction false} Fill(s: State, item: Item, n: nat) returns (actions: seq<Action>, s': State)
    requires s.producer.Idle? && s.owner == Free && s.pipe == []
    requires 8 * n <= CAPACITY && (8 * n <= ENOUGH || s.bufferSize > 8 * (n - 1))
    ensures Run(s, actions) == Then(s') && NoResize(actions)
    ensures s' == s.(pipe := s'.pipe, pushed := s'.pushed, readsSince := s'.readsSince)
    ensures |s'.pipe| == 8 * n
    decreases n
  {
    hide Step;
    if n == 0 {
      actions, s' := [], s;
    } else {
      var first, s1 := Fill(s, item, n - 1);
      var last;
      last, s' := PushOne(s1, item);
      actions := first + last;
      RunThen(s, first, last);
    }
  }

  /** A reader inside the monitor finishes its pair. */
  lemma {:induction false} FinishReading(s: State, id: nat) returns (actions: seq<Action>, s': State)
    requires id in s.readers && s.readers[id].Reading? && |s.readers[id].got| < 8
    requires |s.pipe| >= 8 - |s.readers[id].got|
    ensures Run(s, actions) == Then(s') && NoResize(actions)
    ensures s' == s.(pipe := s'.pipe, readers := s.readers[id := Away], owner := Free, fates := s'.fates,
                     readsSince := s.readsSince + 1)
    ensures |s'.pipe| == |s.pipe| - (8 - |s.readers[id].got|)
    decreases 8 - |s.readers[id].got|
  {
    hide Decode;
    var s1 := Step(s, ReadByte(id)).state;
    if |s.readers[id].got| == 7 {
      actions, s' := [ReadByte(id)], s1;
      assert actions[1..] == [];
    } else {
      var rest;
      rest, s' := FinishReading(s1, id);
      actions := [ReadByte(id)] + rest;
      assert actions[1..] == rest;
      assert s1.readers[id := Away] == s.readers[id := Away];
    }
  }

  /** A reader calls and enters the free monitor. */
  lemma {:induction false} Enter(s: State, id: nat) returns (actions: seq<Action>, s': State)
    requires id in s.readers && s.readers[id].Away? && s.owner == Free
    ensures Run(s, actions) == Then(s') && NoResize(actions)
    ensures s' == s.(readers := s.readers[id := Reading([])], owner := ByReader(id))
  {
    actions := [CallRead(id)];
    assert actions[1..] == [];
    RunSnoc(s, actions, ReaderEnter(id));
    actions := actions + [ReaderEnter(id)];
    s' := Run(s, actions).state;
    assert s'.readers == s.readers[id := Reading([])];
  }

  /** n pairs are read while the producer does nothing. */
  lemma {:induction false} Drain(s: State, id: nat, n: nat) returns (actions: seq<Action>, s': State)
    requires id in s.readers && s.readers[id].Away? && s.owner == Free && |s.pipe| == 8 * n
    ensures Run(s, actions) == Then(s') && NoResize(actions)
    ensures s' == s.(pipe := [], fates := s'.fates, readsSince := s.readsSince + n)
    decreases n
  {
    hide Step;
    if n == 0 {
      actions, s' := [], s;
    } else {
      var a1, s1 := Enter(s, id);
      var a2, s2 := FinishReading(s1, id);
      assert s2.readers == s.readers;
      var a3;
      a3, s' := Drain(s2, id, n - 1);
      RunThen(s, a1, a2);
      RunThen(s, a1 + a2, a3);
      actions := a1 + a2 + a3;
    }
  }

  /** 125 pushes, a 126th past its check, and 125 reads: the producer waits at an empty pipe. */
  lemma {:induction false} DrainedBehindCheck(bufferSize: int, id: nat) returns (actions: seq<Action>, s: State)
    ensures Run(Start(bufferSize, {id}), actions) == Then(s) && NoResize(actions)
    ensures s.producer.Waiting? && s.owner == Free && s.pipe == [] && s.readsSince == 125
    ensures s.bufferSize == bufferSize && id in s.readers && s.readers[id].Away?
  {
    var start, item := Start(bufferSize, {id}), Item(0, 0);
    var a1, s1 := Fill(start, item, 125);
    RunSnoc(start, a1, Push(item));
    var s2 := Step(s1, Push(item)).state;
    var a3, s3 := Drain(s2, id, 125);
    RunThen(start, a1 + [Push(item)], a3);
    actions, s := a1 + [Push(item)] + a3, s3;
  }

  /** The bound of DeadlockNeeds125Reads is reached. */
  lemma {:induction false} DeadlockAfter125Reads(bufferSize: int, id: nat) returns (actions: seq<Action>)
    ensures Run(Start(bufferSize, {id}), actions).Then? && NoResize(actions)
    ensures var s := Run(Start(bufferSize, {id}), actions).state; Deadlocked(s) && s.readsSince == 125
  {
    hide Run;
    var a1, s1 := DrainedBehindCheck(bufferSize, id);
    var a2, s2 := Enter(s1, id);
    RunThen(Start(bufferSize, {id}), a1, a2);
    actions := a1 + a2;
  }

  /** A buffer size below 1 lets the producer drop from an empty pipe. */
  lemma {:induction false} BlockedBelow(bufferSize: int, id: nat) returns (actions: seq<Action>)
    requires bufferSize < 1
    ensures Run(Start(bufferSize, {id}), actions).Then? && NoResize(actions)
    ensures BlockedOnPipe(Run(Start(bufferSize, {id}), actions).state)
  {
    var start := Start(bufferSize, {id});
    var a1, s1 := DrainedBehindCheck(bufferSize, id);
    RunSnoc(start, a1, EnterMonitor);
    RunSnoc(start, a1 + [EnterMonitor], CheckAgain);
    actions := a1 + [EnterMonitor] + [CheckAgain];
  }

  /** A buffer size above 1024 lets it write into a full one. */
  lemma {:induction false} BlockedAbove(bufferSize: int, id: nat) returns (actions: seq<Action>)
    requires bufferSize > MAX_BUFFER
    ensures Run(Start(bufferSize, {id}), actions).Then? && NoResize(actions)
    ensures BlockedOnPipe(Run(Start(bufferSize, {id}), actions).state)
  {
    var start, item := Start(bufferSize, {id}), Item(0, 0);
    var a1, s1 := Fill(start, item, 128);
    RunSnoc(start, a1, Push(item));
    RunSnoc(start, a1 + [Push(item)], EnterMonitor);
    RunSnoc(start, a1 + [Push(item)] + [EnterMonitor], CheckAgain);
    actions := a1 + [Push(item)] + [EnterMonitor] + [CheckAgain];
  }

  /** Some run in which the buffer size stays as given blocks the producer on the pipe. */
  ghost predicate CanBlock(bufferSize: int, id: nat) {
    exists actions :: Run(Start(bufferSize, {id}), actions).Then? && NoResize(actions)
      && BlockedOnPipe(Run(Start(bufferSize, {id}), actions).state)
  }

  /** The producer can block on the pipe exactly if the buffer size is not between 1 and 1024. */
  lemma {:induction false} ProducerCanBlockIff(bufferSize: int, id: nat)
    ensures CanBlock(bufferSize, id) <==> !SizeInRange(bufferSize)
  {
    hide Run, BlockedOnPipe;
    if bufferSize < 1 {
      var actions := BlockedBelow(bufferSize, id);
    } else if bufferSize > MAX_BUFFER {
      var actions := BlockedAbove(bufferSize, id);
    } else if CanBlock(bufferSize, id) {
      var actions :| Run(Start(bufferSize, {id}), actions).Then? && NoResize(actions)
        && BlockedOnPipe(Run(Start(bufferSize, {id}), actions).state);
      ProducerNeverBlocksOnPipe(bufferSize, {id}, actions);
      assert false;
    }
  }
}
