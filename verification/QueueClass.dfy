/** The ring queue as an object that is updated in place, by one thread. */
module QueueClass {
  import opened Values
  import opened Bits
  import opened RingQueue

  class Queue<T(0)> {
    const size: nat
    const mask: nat
    const values: array<T>
    var frontCursor: nat
    var backCursor: nat
    var cachedFrontCursor: nat
    var cachedBackCursor: nat
    ghost var bits: nat
    ghost var pushed: seq<T>
    ghost var popped: seq<T>
    ghost var frontSeen: nat
    ghost var backSeen: nat

    ghost function AsRing(): Ring<T>
      reads this, values
    {
      Ring(bits, values[..], frontCursor, backCursor, cachedFrontCursor, cachedBackCursor, false, Idle, [],
           pushed, popped, frontSeen, backSeen)
    }

    ghost predicate Valid()
      reads this, values
    {
      && size == values.Length > 0 && mask == size - 1
      && Inv(AsRing())
    }

    /** The values in the queue, oldest first. */
    ghost function Values(): (s: seq<T>)
      requires Valid()
      reads this, values
    {
      Contents(AsRing())
    }

    /** The size passes the program's own test for a power of two. */
    constructor (n: nat)
      requires 1 < n < WORD && And(n, n - 1) == 0
      ensures Valid() && Values() == [] && size == n && fresh(values)
    {
      size := n;
      mask := n - 1;
      values := new T[n];
      frontCursor, backCursor, cachedFrontCursor, cachedBackCursor := 0, 0, 0, 0;
      pushed, popped, frontSeen, backSeen := [], [], 0, 0;
      PowerTest(n);
      var k: nat :| n == Pow2(k);
      bits := k;
      new;
      SmallPower(k);
      assert Init(AsRing());
      InitHolds(AsRing());
    }

    method PushBack(value: T) returns (ok: bool)
      requires Valid()
      modifies this, values
      ensures Valid()
      ensures ok <==> |old(Values())| < size
      ensures Values() == if ok then old(Values()) + [value] else old(Values())
    {
      hide Inv, And, Subtract;
      ghost var r := AsRing().(producer := Checking(value, backCursor));
      PushKeeps(AsRing(), value);
      ghost var checked := StepProducer(r);
      ProducerStep(r);
      if Subtract(backCursor, cachedFrontCursor) == size {
        cachedFrontCursor := frontCursor;
        frontSeen := |popped|;
        PushGivesUpWhenFull(checked);
        ProducerStep(checked);
        checked := StepProducer(checked);
        if Subtract(backCursor, cachedFrontCursor) == size {
          assert AsRing() == checked;
          return false;
        }
      }
      assert checked.producer == Writing(value, backCursor);
      WriteFits(checked);
      values[And(backCursor, mask)] := value;
      ProducerStep(checked);
      ghost var written := StepProducer(checked);
      assert values[..] == written.slots;
      backCursor := Increment(backCursor);
      pushed := pushed + [value];
      ProducerStep(written);
      assert AsRing() == StepProducer(written);
      ok := true;
    }

    method PopFront() returns (value: Option<T>)
      requires Valid()
      modifies this
      ensures Valid()
      ensures old(Values()) == [] ==> value == None && Values() == []
      ensures old(Values()) != [] ==> value == Some(old(Values())[0]) && Values() == old(Values())[1..]
    {
      hide And, Subtract;
      ghost var r := AsRing();
      BackDiffers(r);
      if IsEmpty(frontCursor, cachedBackCursor) {
        cachedBackCursor := backCursor;
        backSeen := |pushed|;
        Distances(r, |popped|, |pushed|);
        if IsEmpty(frontCursor, cachedBackCursor) {
          return None;
        }
      }
      MasksCount(r, |popped|);
      value := Some(values[And(frontCursor, mask)]);
      WrapIncrement(|popped|);
      frontCursor := Increment(frontCursor);
      popped := popped + [value.value];
    }
  }

  lemma ProducerStep<T>(r: Ring<T>)
    requires Inv(r) && |r.slots| > 0
    ensures Inv(StepProducer(r))
  {
    ProducerKeeps(r);
    ProducerLock(r);
  }

  lemma WriteFits<T>(r: Ring<T>)
    requires Inv(r) && r.producer.Writing?
    ensures |r.popped| <= |r.pushed| && |Contents(r)| < |r.slots|
  {
  }

  lemma {:induction false} SmallPower(k: nat)
    requires 1 < Pow2(k) < WORD
    ensures 1 <= k < 64
  {
    if k >= 64 {
      Pow2Split(64, k - 64);
      WordIsPow();
      hide Pow2;
    }
  }

}
