/** The byte queue below the shell: an interrupt pushes, a loop pops, and each
    side writes one index that the other only reads. */
module QueueModel {
  import opened Basics

  const CAPACITY: nat := 64

  type Octet = x: nat | x < 256

  // ----- uninterrupted -----

  /** An index once round at most. */
  function Wrap(x: nat): (at: nat)
    requires x < 2 * CAPACITY
    ensures at < CAPACITY && at == x % CAPACITY
  {
    if x < CAPACITY then x else x - CAPACITY
  }

  function Distance(tail: nat, head: nat): nat
    requires tail < CAPACITY && head < CAPACITY
  {
    if head >= tail then head - tail else head + CAPACITY - tail
  }

  /** The bytes between the two indices, oldest first. */
  function Waiting(bytes: seq<Octet>, tail: nat, head: nat): (w: seq<Octet>)
    requires |bytes| == CAPACITY && tail < CAPACITY && head < CAPACITY
    ensures |w| == Distance(tail, head) && forall i :: 0 <= i < |w| ==> w[i] == bytes[Wrap(tail + i)]
  {
    seq(Distance(tail, head), i requires 0 <= i < Distance(tail, head) => bytes[Wrap(tail + i)])
  }

  /** One byte more, where there is room. */
  lemma OneWaits(bytes: seq<Octet>, tail: nat, head: nat, byte: Octet)
    requires |bytes| == CAPACITY && tail < CAPACITY && head < CAPACITY
    ensures Wrap(head + 1) == tail <==> |Waiting(bytes, tail, head)| == CAPACITY - 1
    ensures Wrap(head + 1) != tail ==>
      Waiting(bytes[head := byte], tail, Wrap(head + 1)) == Waiting(bytes, tail, head) + [byte]
  {
    if Wrap(head + 1) != tail {
      var a, b := Waiting(bytes[head := byte], tail, Wrap(head + 1)), Waiting(bytes, tail, head) + [byte];
      assert |a| == |b|;
      forall i | 0 <= i < |a| ensures a[i] == b[i] {}
    }
  }

  /** One byte fewer, where there is one. */
  lemma OneLeaves(bytes: seq<Octet>, tail: nat, head: nat)
    requires |bytes| == CAPACITY && tail < CAPACITY && head < CAPACITY
    ensures tail == head <==> Waiting(bytes, tail, head) == []
    ensures tail != head ==> Waiting(bytes, tail, head) == [bytes[tail]] + Waiting(bytes, Wrap(tail + 1), head)
  {
    if tail != head {
      var a, b := Waiting(bytes, tail, head), [bytes[tail]] + Waiting(bytes, Wrap(tail + 1), head);
      assert |a| == |b|;
      forall i | 0 <= i < |a| ensures a[i] == b[i] {}
    }
  }

  class Queue {
    const buffer: array<Octet>
    var head: nat
    var tail: nat

    ghost predicate Valid()
      reads this
    {
      buffer.Length == CAPACITY && head < CAPACITY && tail < CAPACITY
    }

    /** The bytes pushed and not yet popped, oldest first. */
    ghost function Contents(): seq<Octet>
      reads this, buffer
      requires Valid()
    {
      Waiting(buffer[..], tail, head)
    }

    constructor ()
      ensures Valid() && Contents() == []
    {
      buffer := new Octet[CAPACITY](_ => 0);
      head, tail := 0, 0;
    }

    /** Adds a byte, unless 63 are waiting already: then it is dropped. */
    method Push(byte: Octet) returns (ok: bool)
      requires Valid()
      modifies this`head, buffer
      ensures Valid()
      ensures ok <==> |old(Contents())| < CAPACITY - 1
      ensures Contents() == if ok then old(Contents()) + [byte] else old(Contents())
    {
      hide Waiting;
      OneWaits(buffer[..], tail, head, byte);
      ghost var was := buffer[..];
      var next := (head + 1) % CAPACITY;
      if next == tail {
        return false;
      }
      buffer[head] := byte;
      assert buffer[..] == was[head := byte];
      head := next;
      return true;
    }

    /** The byte at the front, if one is waiting. */
    method Pop() returns (r: Option<Octet>)
      requires Valid()
      modifies this`tail
      ensures Valid()
      ensures r == if old(Contents()) == [] then None else Some(old(Contents())[0])
      ensures Contents() == if old(Contents()) == [] then [] else old(Contents())[1..]
    {
      hide Waiting;
      OneLeaves(buffer[..], tail, head);
      if tail == head {
        return None;
      }
      var byte := buffer[tail];
      tail := (tail + 1) % CAPACITY;
      return Some(byte);
    }
  }

  // ----- interleaved -----

  /** Where a push is: not begun, its index read, room seen, or its byte
      written and not yet published. */
  datatype Producer =
    | Quiet
    | Indexed(byte: Octet, at: nat)
    | Roomy(byte: Octet, at: nat)
    | Written(byte: Octet, at: nat)

  /** Where a pop is: not begun, its index read, a byte seen, or a byte read
      and its slot not yet given back. */
  datatype Consumer =
    | Idle
    | Aimed(at: nat)
    | Ready(at: nat)
    | Taken(at: nat, byte: Octet)

  /** The shared words, both programs, and what has passed: every byte a push
      published and every byte a pop took. */
  datatype State = State(
    buffer: seq<Octet>,
    head: nat,
    tail: nat,
    producer: Producer,
    consumer: Consumer,
    accepted: seq<Octet>,
    popped: seq<Octet>)

  const EMPTY := State(seq(CAPACITY, _ => 0), 0, 0, Quiet, Idle, [], [])

  /** One atomic step of either side. */
  datatype Step = PushBegins(byte: Octet) | Produces | PopBegins | Consumes

  /** Each load and each store of the two programs, one at a time. */
  function Do(s: State, step: Step): (t: State)
    requires |s.buffer| == CAPACITY
    ensures |t.buffer| == CAPACITY
  {
    match step
    case PushBegins(byte) => if s.producer.Quiet? then s.(producer := Indexed(byte, s.head)) else s
    case Produces =>
      (match s.producer
       case Quiet => s
       case Indexed(byte, at) =>
         if (at + 1) % CAPACITY == s.tail then s.(producer := Quiet) else s.(producer := Roomy(byte, at))
       case Roomy(byte, at) =>
         if at < CAPACITY then s.(buffer := s.buffer[at := byte], producer := Written(byte, at)) else s
       case Written(byte, at) =>
         s.(head := (at + 1) % CAPACITY, producer := Quiet, accepted := s.accepted + [byte]))
    case PopBegins => if s.consumer.Idle? then s.(consumer := Aimed(s.tail)) else s
    case Consumes =>
      (match s.consumer
       case Idle => s
       case Aimed(at) => if at == s.head then s.(consumer := Idle) else s.(consumer := Ready(at))
       case Ready(at) => if at < CAPACITY then s.(consumer := Taken(at, s.buffer[at])) else s
       case Taken(at, byte) =>
         s.(tail := (at + 1) % CAPACITY, consumer := Idle, popped := s.popped + [byte]))
  }

  /** How many bytes are published and not yet popped. */
  function Pending(s: State): int { |s.accepted| - |s.popped| }

  /** What every interleaving keeps. */
  ghost predicate Good(s: State) {
    && |s.buffer| == CAPACITY && s.head == |s.accepted| % CAPACITY && s.tail == |s.popped| % CAPACITY
    && 0 <= Pending(s) <= CAPACITY - 1
    && s.popped == s.accepted[..|s.popped|]
    && (forall i {:trigger s.accepted[i]} :: |s.popped| <= i < |s.accepted| ==> s.buffer[i % CAPACITY] == s.accepted[i])
    && Producing(s) && Consuming(s)
  }

  ghost predicate Producing(s: State)
    requires |s.buffer| == CAPACITY
  {
    match s.producer
    case Quiet => true
    case Indexed(_, at) => at == s.head
    case Roomy(_, at) => at == s.head < CAPACITY && Pending(s) < CAPACITY - 1
    case Written(byte, at) => at == s.head < CAPACITY && Pending(s) < CAPACITY - 1 && s.buffer[at] == byte
  }

  ghost predicate Consuming(s: State) {
    match s.consumer
    case Idle => true
    case Aimed(at) => at == s.tail
    case Ready(at) => at == s.tail && Pending(s) > 0
    case Taken(at, byte) => at == s.tail && Pending(s) > 0 && byte == s.accepted[|s.popped|]
  }

  /** Indices less than a lap apart meet only when equal. */
  lemma Laps(a: nat, b: nat)
    requires a <= b < a + CAPACITY
    ensures a % CAPACITY == b % CAPACITY <==> a == b
    ensures (b + 1) % CAPACITY == a % CAPACITY <==> b + 1 == a + CAPACITY
    ensures (b % CAPACITY + 1) % CAPACITY == (b + 1) % CAPACITY
  {}

  lemma ProducesGood(s: State)
    requires Good(s)
    ensures Good(Do(s, Produces))
  {
    Laps(|s.popped|, |s.accepted|);
    var t := Do(s, Produces);
    if s.producer.Roomy? {
      forall i | |s.popped| <= i < |s.accepted| ensures t.buffer[i % CAPACITY] == t.accepted[i] { Laps(i, |s.accepted|); }
    }
  }

  lemma ConsumesGood(s: State)
    requires Good(s)
    ensures Good(Do(s, Consumes))
  {
    Laps(|s.popped|, |s.accepted|);
    if s.consumer.Taken? {
      assert s.accepted[..|s.popped| + 1] == s.accepted[..|s.popped|] + [s.accepted[|s.popped|]];
    }
    if s.consumer.Ready? { assert s.accepted[|s.popped|] == s.buffer[|s.popped| % CAPACITY]; }
    Laps(|s.popped|, |s.popped|);
  }

  lemma StepGood(s: State, step: Step)
    requires Good(s)
    ensures Good(Do(s, step))
  {
    match step
    case Produces => ProducesGood(s);
    case Consumes => ConsumesGood(s);
    case _ =>
  }

  function Run(s: State, steps: seq<Step>): (t: State)
    requires |s.buffer| == CAPACITY
    ensures |t.buffer| == CAPACITY
    decreases |steps|
  {
    if steps == [] then s else Run(Do(s, steps[0]), steps[1..])
  }

  lemma {:induction false} RunGood(s: State, steps: seq<Step>)
    requires Good(s)
    ensures Good(Run(s, steps))
    decreases |steps|
  {
    if steps != [] {
      StepGood(s, steps[0]);
      RunGood(Do(s, steps[0]), steps[1..]);
    }
  }

  /** Under every interleaving of the two sides the bytes popped are a prefix of
      the bytes accepted, and at most 63 are pending. */
  lemma EveryInterleaving(steps: seq<Step>)
    ensures var s := Run(EMPTY, steps);
      s.popped <= s.accepted && |s.accepted| - |s.popped| <= CAPACITY - 1
  {
    RunGood(EMPTY, steps);
  }

  /** The slot a push writes holds no unread byte. */
  lemma NoUnreadOverwritten(steps: seq<Step>, i: nat)
    ensures var s := Run(EMPTY, steps);
      s.producer.Roomy? && |s.popped| <= i < |s.accepted| ==> s.producer.at != i % CAPACITY
  {
    RunGood(EMPTY, steps);
    var s := Run(EMPTY, steps);
    if |s.popped| <= i < |s.accepted| { Laps(i, |s.accepted|); }
  }

  /** A push is refused exactly when 63 bytes are unread as it reads the other
      index, and a pop finds nothing exactly when none is. */
  lemma RefusedExactly(steps: seq<Step>)
    ensures var s := Run(EMPTY, steps);
      && (s.producer.Indexed? ==> (Do(s, Produces).producer.Quiet? <==> Pending(s) == CAPACITY - 1))
      && (s.consumer.Aimed? ==> (Do(s, Consumes).consumer.Idle? <==> Pending(s) == 0))
  {
    RunGood(EMPTY, steps);
    var s := Run(EMPTY, steps);
    Laps(|s.popped|, |s.accepted|);
  }
}
