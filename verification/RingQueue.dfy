/** The ring queue with one producer and any number of consumers that take turns by a
    test-and-set lock. One step is one access to a shared variable. */
module RingQueue {
  import opened Values
  import opened Bits

  datatype Producer<T> =
    | Idle
    | Checking(value: T, back: nat)
    | Reloading(value: T, back: nat)
    | Writing(value: T, back: nat)
    | Publishing(value: T, back: nat)

  datatype Consumer<T> =
    | Away
    | Exchanging
    | Loading
    | Testing(front: nat)
    | Refreshing(front: nat)
    | Reading(front: nat)
    | Advancing(front: nat, value: T)
    | Unlocking

  /** Cursors are counts modulo 2^64 and are masked to index the ring; either side keeps an
      old copy of the other cursor and reloads it only when the copy says full, or empty.
      `pushed`, `popped`, `frontSeen` and `backSeen` are history variables: what has been
      published so far, and how much of it had been when a copy was taken. */
  datatype Ring<T> = Ring(
    bits: nat,
    slots: seq<T>,
    front: nat,
    back: nat,
    cachedFront: nat,
    cachedBack: nat,
    isLocked: bool,
    producer: Producer<T>,
    consumers: seq<Consumer<T>>,
    pushed: seq<T>,
    popped: seq<T>,
    frontSeen: nat,
    backSeen: nat
  )

  datatype Action<T> = Push(value: T) | Produce | Consume(id: nat)

  function Size<T>(r: Ring<T>): nat { |r.slots| }

  function Index<T>(r: Ring<T>, cursor: nat): (i: nat)
    requires |r.slots| > 0
    ensures i < |r.slots|
  {
    And(cursor, |r.slots| - 1)
  }

  predicate IsFull<T>(r: Ring<T>, front: nat, back: nat) { Subtract(back, front) == Size(r) }

  predicate IsEmpty(front: nat, back: nat) { back == front }

  function StepProducer<T>(r: Ring<T>): Ring<T>
    requires |r.slots| > 0
  {
    match r.producer
    case Idle => r
    case Checking(v, back) =>
      r.(producer := if IsFull(r, r.cachedFront, back) then Reloading(v, back) else Writing(v, back))
    case Reloading(v, back) =>
      r.(cachedFront := r.front, frontSeen := |r.popped|, producer :=
          if IsFull(r, r.front, back) then Idle else Writing(v, back))
    case Writing(v, back) => r.(slots := r.slots[Index(r, back) := v], producer := Publishing(v, back))
    case Publishing(v, back) => r.(back := Increment(back), pushed := r.pushed + [v], producer := Idle)
  }

  function StepConsumer<T>(r: Ring<T>, id: nat): Ring<T>
    requires |r.slots| > 0
    requires id < |r.consumers|
  {
    match r.consumers[id]
    case Away => r.(consumers := r.consumers[id := if r.isLocked then Away else Exchanging])
    case Exchanging => r.(isLocked := true, consumers := r.consumers[id := if r.isLocked then Away else Loading])
    case Loading => r.(consumers := r.consumers[id := Testing(r.front)])
    case Testing(front) =>
      r.(consumers := r.consumers[id := if IsEmpty(front, r.cachedBack) then Refreshing(front) else Reading(front)])
    case Refreshing(front) =>
      r.(cachedBack := r.back, backSeen := |r.pushed|,
         consumers := r.consumers[id := if IsEmpty(front, r.back) then Unlocking else Reading(front)])
    case Reading(front) => r.(consumers := r.consumers[id := Advancing(front, r.slots[Index(r, front)])])
    case Advancing(front, v) =>
      r.(front := Increment(front), popped := r.popped + [v], consumers := r.consumers[id := Unlocking])
    case Unlocking => r.(isLocked := false, consumers := r.consumers[id := Away])
  }

  ghost predicate CanStep<T>(r: Ring<T>, a: Action<T>, r': Ring<T>)
    requires |r.slots| > 0
  {
    match a
    case Push(v) => r.producer == Idle && r' == r.(producer := Checking(v, r.back))
    case Produce => r' == StepProducer(r)
    case Consume(id) => id < |r.consumers| && r' == StepConsumer(r, id)
  }

  // The invariant

  predicate Holds<T>(c: Consumer<T>) { !c.Away? && !c.Exchanging? }

  /** The counts behind the cursors, in order. */
  ghost predicate InvCursors<T>(r: Ring<T>) {
    && 1 <= r.bits < 64 && |r.slots| == Pow2(r.bits)
    && r.front == |r.popped| % WORD && r.back == |r.pushed| % WORD
    && r.cachedFront == r.frontSeen % WORD && r.cachedBack == r.backSeen % WORD
    && r.frontSeen <= |r.popped| <= r.backSeen <= |r.pushed| <= r.frontSeen + |r.slots|
  }

  /** First in, first out, and what is still to be popped lies in its slot. */
  ghost predicate InvContents<T>(r: Ring<T>) {
    && |r.slots| > 0 && r.popped <= r.pushed
    && forall i :: |r.popped| <= i < |r.pushed| ==> r.slots[i % |r.slots|] == r.pushed[i]
  }

  ghost predicate InvProducer<T>(r: Ring<T>) {
    && (!r.producer.Idle? ==> r.producer.back == r.back)
    && (r.producer.Writing? || r.producer.Publishing? ==> |r.pushed| < r.frontSeen + |r.slots|)
    && (r.producer.Publishing? ==> |r.slots| > 0 && r.slots[|r.pushed| % |r.slots|] == r.producer.value)
  }

  ghost predicate InvConsumer<T>(r: Ring<T>, c: Consumer<T>) {
    && (c.Testing? || c.Refreshing? || c.Reading? || c.Advancing? ==> c.front == r.front)
    && (c.Reading? || c.Advancing? ==> |r.popped| < r.backSeen)
    && (c.Advancing? ==> |r.popped| < |r.pushed| && c.value == r.pushed[|r.popped|])
  }

  ghost predicate InvLock<T>(r: Ring<T>) {
    && (forall i, j :: 0 <= i < |r.consumers| && 0 <= j < |r.consumers| ==>
          Holds(r.consumers[i]) && Holds(r.consumers[j]) ==> i == j)
    && (r.isLocked <==> exists i :: 0 <= i < |r.consumers| && Holds(r.consumers[i]))
    && (forall i :: 0 <= i < |r.consumers| ==> InvConsumer(r, r.consumers[i]))
  }

  ghost predicate Inv<T>(r: Ring<T>) {
    InvCursors(r) && InvContents(r) && InvProducer(r) && InvLock(r)
  }

  /** Any power of two as a size, nothing published, everyone away. */
  ghost predicate Init<T>(r: Ring<T>) {
    && 1 <= r.bits < 64 && |r.slots| == Pow2(r.bits)
    && r.front == r.back == r.cachedFront == r.cachedBack == r.frontSeen == r.backSeen == 0
    && !r.isLocked && r.producer == Idle && r.pushed == [] && r.popped == []
    && forall i :: 0 <= i < |r.consumers| ==> r.consumers[i] == Away
  }

  lemma InitHolds<T>(r: Ring<T>)
    requires Init(r)
    ensures Inv(r)
  {
  }

  lemma Masks<T>(r: Ring<T>, c: nat)
    requires InvCursors(r)
    ensures |r.slots| > 0 && Index(r, c) == c % |r.slots| && Index(r, c) < |r.slots|
  {
    AndMask(c, r.bits);
  }

  lemma MasksCount<T>(r: Ring<T>, n: nat)
    requires InvCursors(r)
    ensures |r.slots| > 0 && Index(r, n % WORD) == n % |r.slots|
  {
    Masks(r, n % WORD);
    WrapKeepsIndex(n, r.bits);
  }

  lemma HasSlots<T>(r: Ring<T>)
    requires InvCursors(r)
    ensures |r.slots| > 0
  {
  }

  lemma SizeFits<T>(r: Ring<T>)
    requires InvCursors(r)
    ensures 2 <= |r.slots| < WORD
  {
    WordIsPow();
    Pow2Split(r.bits, 64 - r.bits);
    Pow2Split(r.bits - 1, 1);
    hide InvContents;
    TwoTimes(Pow2(r.bits), Pow2(64 - r.bits));
  }

  lemma TwoTimes(a: nat, b: nat)
    requires b >= 2 && a >= 1
    ensures a < a * b
  {
  }

  /** Full and empty are read off the wrapped cursors correctly. */
  lemma Distances<T>(r: Ring<T>, front: nat, back: nat)
    requires InvCursors(r) && front <= back <= front + |r.slots|
    ensures IsFull(r, front % WORD, back % WORD) <==> back == front + |r.slots|
    ensures front % WORD == back % WORD <==> front == back
  {
    SizeFits(r);
    WrapSubtract(back, front);
  }

  // The producer

  lemma WriteKeeps<T>(r: Ring<T>)
    requires InvCursors(r) && InvContents(r) && InvProducer(r) && r.producer.Writing?
    ensures |r.slots| > 0 && Index(r, r.producer.back) == |r.pushed| % |r.slots|
    ensures forall i :: |r.popped| <= i < |r.pushed| ==> i % |r.slots| != |r.pushed| % |r.slots|
  {
    MasksCount(r, |r.pushed|);
    forall i | |r.popped| <= i < |r.pushed| ensures i % |r.slots| != |r.pushed| % |r.slots| {
      DistinctIndexes(i, |r.pushed|, |r.slots|);
    }
  }

  lemma ProducerKeeps<T>(r: Ring<T>)
    requires Inv(r) && |r.slots| > 0
    ensures InvCursors(StepProducer(r)) && InvContents(StepProducer(r)) && InvProducer(StepProducer(r))
  {
    hide And, InvLock, Pow2;
    HasSlots(r);
    match r.producer
    case Idle =>
    case Checking(_, _) => Distances(r, r.frontSeen, |r.pushed|);
    case Reloading(_, _) => Distances(r, |r.popped|, |r.pushed|);
    case Writing(_, _) => WriteKeeps(r);
    case Publishing(_, _) => WrapIncrement(|r.pushed|);
  }

  lemma ProducerLock<T>(r: Ring<T>)
    requires InvLock(r) && InvCursors(r) && |r.slots| > 0
    ensures InvLock(StepProducer(r))
  {
    hide And;
    var r' := StepProducer(r);
    assert r'.consumers == r.consumers && r'.isLocked == r.isLocked;
    forall i | 0 <= i < |r.consumers| ensures InvConsumer(r', r.consumers[i]) {
      assert InvConsumer(r, r.consumers[i]);
    }
  }

  // The consumers

  /** What a step of the holder does to the cursors. */
  lemma ConsumerKeeps<T>(r: Ring<T>, id: nat)
    requires Inv(r) && id < |r.consumers| && |r.slots| > 0
    ensures InvCursors(StepConsumer(r, id)) && InvContents(StepConsumer(r, id)) && InvProducer(StepConsumer(r, id))
  {
    hide And, Pow2;
    HasSlots(r);
    assert InvConsumer(r, r.consumers[id]);
    if r.consumers[id].Advancing? { WrapIncrement(|r.popped|); }
  }

  /** The step of one consumer leaves its own next state as the invariant wants it. */
  lemma ConsumerNext<T>(r: Ring<T>, id: nat)
    requires Inv(r) && id < |r.consumers| && |r.slots| > 0
    ensures InvConsumer(StepConsumer(r, id), StepConsumer(r, id).consumers[id])
  {
    hide And, Pow2;
    var c := r.consumers[id];
    assert InvConsumer(r, c);
    if c.Testing? {
      BackDiffers(r);
    } else if c.Refreshing? {
      Distances(r, |r.popped|, |r.pushed|);
    } else if c.Reading? {
      MasksCount(r, |r.popped|);
    }
  }

  lemma BackDiffers<T>(r: Ring<T>)
    requires InvCursors(r)
    ensures r.cachedBack == r.front <==> r.backSeen == |r.popped|
  {
    Distances(r, |r.popped|, r.backSeen);
  }

  lemma ConsumerLock<T>(r: Ring<T>, id: nat)
    requires Inv(r) && id < |r.consumers| && |r.slots| > 0
    ensures InvLock(StepConsumer(r, id))
  {
    hide And, InvContents, InvProducer, InvCursors;
    var r' := StepConsumer(r, id);
    ConsumerNext(r, id);
    forall i | 0 <= i < |r'.consumers| ensures InvConsumer(r', r'.consumers[i]) {
      assert InvConsumer(r, r.consumers[i]);
    }
    assert forall i :: 0 <= i < |r.consumers| && i != id ==> r'.consumers[i] == r.consumers[i];
    if Holds(r'.consumers[id]) {
    } else if Holds(r.consumers[id]) {
    } else {
      assert forall i :: 0 <= i < |r.consumers| ==> (Holds(r'.consumers[i]) <==> Holds(r.consumers[i]));
    }
  }

  /** Every step of the producer and of any consumer keeps the invariant. */
  lemma StepKeeps<T>(r: Ring<T>, a: Action<T>, r': Ring<T>)
    requires Inv(r) && |r.slots| > 0 && CanStep(r, a, r')
    ensures Inv(r')
  {
    hide And, InvCursors, InvContents, InvLock, StepProducer, StepConsumer;
    match a
    case Push(v) => PushKeeps(r, v);
    case Produce => ProducerKeeps(r); ProducerLock(r);
    case Consume(id) => ConsumerKeeps(r, id); ConsumerLock(r, id);
  }

  lemma PushKeeps<T>(r: Ring<T>, v: T)
    requires Inv(r) && r.producer == Idle
    ensures Inv(r.(producer := Checking(v, r.back)))
  {
    var r' := r.(producer := Checking(v, r.back));
    assert forall i :: 0 <= i < |r.consumers| ==> InvConsumer(r, r.consumers[i]) ==> InvConsumer(r', r.consumers[i]);
  }

  // What the queue is, seen from outside

  /** The values published and not yet popped, oldest first. */
  ghost function Contents<T>(r: Ring<T>): seq<T>
    requires |r.popped| <= |r.pushed|
  {
    r.pushed[|r.popped|..]
  }

  lemma ContentsFit<T>(r: Ring<T>)
    requires Inv(r)
    ensures |r.popped| <= |r.pushed| && |Contents(r)| <= |r.slots|
  {
  }

  lemma AdvancingHasFront<T>(r: Ring<T>, id: nat)
    requires Inv(r) && id < |r.consumers| && r.consumers[id].Advancing?
    ensures |r.popped| < |r.pushed| && r.consumers[id].value == r.pushed[|r.popped|]
  {
    assert InvConsumer(r, r.consumers[id]);
  }

  /** What one step does to the contents: a value comes in at the back when the producer
      publishes it, the oldest goes out when a consumer advances the cursor, and nothing
      else changes them. */
  lemma StepActsAsQueue<T>(r: Ring<T>, a: Action<T>, r': Ring<T>)
    requires Inv(r) && |r.slots| > 0 && CanStep(r, a, r')
    ensures |r.popped| <= |r.pushed| && |r'.popped| <= |r'.pushed|
    ensures Contents(r') ==
              if a.Produce? && r.producer.Publishing? then Contents(r) + [r.producer.value]
              else if a.Consume? && r.consumers[a.id].Advancing? then Contents(r)[1..]
              else Contents(r)
    ensures a.Consume? && r.consumers[a.id].Advancing? ==>
              Contents(r) != [] && Contents(r)[0] == r.consumers[a.id].value
    ensures |Contents(r')| <= |r'.slots|
  {
    StepKeeps(r, a, r');
    ContentsFit(r);
    ContentsFit(r');
    hide And, Inv, Index, IsFull, IsEmpty, Increment;
    if a.Consume? && r.consumers[a.id].Advancing? { AdvancingHasFront(r, a.id); }
  }

  /** A push gives up exactly when the queue is full at the moment it reloads the front. */
  lemma PushGivesUpWhenFull<T>(r: Ring<T>)
    requires Inv(r) && |r.slots| > 0 && r.producer.Reloading?
    ensures StepProducer(r).producer == Idle <==> |Contents(r)| == |r.slots|
  {
    Distances(r, |r.popped|, |r.pushed|);
  }

  /** A pop gives up exactly when the queue is empty at the moment it reloads the back. */
  lemma PopGivesUpWhenEmpty<T>(r: Ring<T>, id: nat)
    requires Inv(r) && |r.slots| > 0 && id < |r.consumers| && r.consumers[id].Refreshing?
    ensures StepConsumer(r, id).consumers[id] == Unlocking <==> Contents(r) == []
  {
    assert InvConsumer(r, r.consumers[id]);
    Distances(r, |r.popped|, |r.pushed|);
  }

  /** The slot being written is not one that is still to be read, nor the one being read. */
  lemma WriterApart<T>(r: Ring<T>, id: nat)
    requires Inv(r) && |r.slots| > 0 && r.producer.Writing?
    ensures forall i :: |r.popped| <= i < |r.pushed| ==> Index(r, i % WORD) != Index(r, r.producer.back)
    ensures id < |r.consumers| && r.consumers[id].Reading?
            ==> Index(r, r.consumers[id].front) != Index(r, r.producer.back)
  {
    hide Index;
    WriteKeeps(r);
    forall i | |r.popped| <= i < |r.pushed|
      ensures Index(r, i % WORD) != Index(r, r.producer.back)
    {
      MasksCount(r, i);
    }
    if id < |r.consumers| && r.consumers[id].Reading? {
      assert InvConsumer(r, r.consumers[id]);
      MasksCount(r, |r.popped|);
    }
  }

  ghost predicate Steps<T(!new)>(r: Ring<T>, r': Ring<T>) {
    |r.slots| > 0 && exists a :: CanStep(r, a, r')
  }

  ghost predicate IsRun<T(!new)>(run: seq<Ring<T>>) {
    && |run| > 0 && Init(run[0])
    && forall i :: 0 < i < |run| ==> Steps(run[i - 1], run[i])
  }

  lemma {:induction false} RunKeeps<T(!new)>(run: seq<Ring<T>>, i: nat)
    requires IsRun(run) && i < |run|
    ensures Inv(run[i])
  {
    hide CanStep, Inv, Init;
    if i == 0 {
      InitHolds(run[0]);
    } else {
      RunKeeps(run, i - 1);
      assert Steps(run[i - 1], run[i]);
      var a :| CanStep(run[i - 1], a, run[i]);
      StepKeeps(run[i - 1], a, run[i]);
    }
  }

  /** First in, first out under every interleaving, however often the cursors wrap: what
      has been popped is a prefix of what has been pushed, no more than the size behind, and
      only one consumer is ever inside. */
  lemma AlwaysFifo<T(!new)>(run: seq<Ring<T>>, i: nat)
    requires IsRun(run) && i < |run|
    ensures var r := run[i];
            && r.popped <= r.pushed
            && |r.pushed| - |r.popped| <= |r.slots|
            && r.frontSeen <= |r.popped| <= r.backSeen <= |r.pushed| <= r.frontSeen + |r.slots|
            && forall j, k :: 0 <= j < k < |r.consumers| ==> !(Holds(r.consumers[j]) && Holds(r.consumers[k]))
  {
    RunKeeps(run, i);
  }
}
