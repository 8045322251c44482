/** The fixed-size circular buffer of WebSocket messages, and the bounded queue it is. */
module MessageBuffers {

  type Byte = bv8

  type Message = seq<Byte>

  // ------------------------------------------------------------------
  // The bounded queue
  // ------------------------------------------------------------------

  datatype Op = Write(data: Message) | Read

  /** What an operation answers: accepted or full, a message or nothing. */
  datatype Answer = Accepted | Full | Got(data: Message) | Nothing

  datatype Step = Step(queue: seq<Message>, answer: Answer)

  function Apply(size: nat, q: seq<Message>, op: Op): Step {
    match op
    case Write(data) => if |q| == size then Step(q, Full) else Step(q + [data], Accepted)
    case Read => if q == [] then Step(q, Nothing) else Step(q[1..], Got(q[0]))
  }

  /** The queue and the answers after a sequence of operations on an empty buffer. */
  datatype Outcome = Outcome(queue: seq<Message>, answers: seq<Answer>)

  function After(size: nat, ops: seq<Op>): (r: Outcome)
    ensures |r.answers| == |ops| && |r.queue| <= size
    decreases |ops|
  {
    if ops == [] then Outcome([], [])
    else
      var before := After(size, ops[..|ops| - 1]);
      var step := Apply(size, before.queue, ops[|ops| - 1]);
      Outcome(step.queue, before.answers + [step.answer])
  }

  /** The messages whose writes were accepted. */
  function AcceptedWrites(ops: seq<Op>, answers: seq<Answer>): seq<Message>
    requires |ops| == |answers|
    decreases |ops|
  {
    if ops == [] then []
    else
      var n := |ops| - 1;
      AcceptedWrites(ops[..n], answers[..n]) +
      if ops[n].Write? && answers[n].Accepted? then [ops[n].data] else []
  }

  /** The messages that were read. */
  function ReadBack(answers: seq<Answer>): seq<Message>
    decreases |answers|
  {
    if answers == [] then []
    else
      var n := |answers| - 1;
      ReadBack(answers[..n]) + if answers[n].Got? then [answers[n].data] else []
  }

  /** In every run: what was accepted is what was read, in order, followed by what is still there. */
  lemma {:induction false} NothingLostNothingReordered(size: nat, ops: seq<Op>)
    ensures var r := After(size, ops);
            AcceptedWrites(ops, r.answers) == ReadBack(r.answers) + r.queue
    decreases |ops|
  {
    if ops == [] {
    } else {
      var n := |ops| - 1;
      var before, r := After(size, ops[..n]), After(size, ops);
      NothingLostNothingReordered(size, ops[..n]);
      assert r.answers[..n] == before.answers;
      assert ops[n].Read? && before.queue != [] ==> before.queue == [before.queue[0]] + before.queue[1..];
    }
  }

  /** In every run: a write is refused exactly when accepted writes outnumber reads by the size,
      and a read finds nothing exactly when they are level. */
  lemma RefusedExactlyWhenFull(size: nat, ops: seq<Op>, op: Op)
    ensures var r := After(size, ops);
            var waiting := |AcceptedWrites(ops, r.answers)| - |ReadBack(r.answers)|;
            && (op.Write? ==> (Apply(size, r.queue, op).answer == Full <==> waiting == size))
            && (op.Read? ==> (Apply(size, r.queue, op).answer == Nothing <==> waiting == 0))
  {
    NothingLostNothingReordered(size, ops);
  }

  // ------------------------------------------------------------------
  // The circular buffer
  // ------------------------------------------------------------------

  /** The contents of the waiting slices. */
  ghost function Contents(slices: seq<array<Byte>>): (r: seq<Message>)
    reads slices
    ensures |r| == |slices|
    ensures forall k | 0 <= k < |slices| :: r[k] == slices[k][..]
  {
    seq(|slices|, k requires 0 <= k < |slices| reads slices => slices[k][..])
  }

  lemma ContentsAppend(slices: seq<array<Byte>>, last: array<Byte>)
    ensures Contents(slices + [last]) == Contents(slices) + [last[..]]
  {
  }

  lemma ContentsTail(slices: seq<array<Byte>>)
    requires slices != []
    ensures Contents(slices) == [slices[0][..]] + Contents(slices[1..])
  {
  }

  twostate lemma ContentsUnchanged(slices: seq<array<Byte>>)
    requires forall m <- slices :: m[..] == old(m[..])
    ensures Contents(slices) == old(Contents(slices))
  {
    assert forall k | 0 <= k < |slices| :: slices[k][..] == old(slices[k][..]);
  }

  lemma NextSlot(slot: nat, size: nat)
    requires slot < size
    ensures (slot + 1) % size == if slot + 1 == size then 0 else slot + 1
  {
  }

  class MessageBuffer {
    const buffer: array<array?<Byte>>
    const size: nat
    var head: nat
    var tail: nat
    var count: nat
    ghost var waiting: seq<array<Byte>>

    /** The slot `k` places behind the head, for `k` up to the size. */
    function Slot(k: nat): int
      reads this`head
    {
      if head + k < size then head + k else head + k - size
    }

    ghost predicate Valid()
      reads this, buffer
    {
      && buffer.Length == size
      && count == |waiting| <= size
      && (size > 0 ==> head < size && tail == Slot(count))
      && (forall k | 0 <= k < count :: buffer[Slot(k)] == waiting[k])
      && (forall j, k | 0 <= j < k < count :: waiting[j] != waiting[k])
      && (forall m <- waiting :: m as object != buffer)
    }

    ghost function Queue(): seq<Message>
      reads this, waiting
    {
      Contents(waiting)
    }

    constructor (size: nat)
      ensures Valid() && fresh(buffer) && this.size == size && Queue() == []
    {
      this.size := size;
      buffer := new array?<Byte>[size](_ => null);
      head, tail, count := 0, 0, 0;
      waiting := [];
    }

    method Put(msg: array<Byte>)
      requires Valid() && count < size && msg !in waiting && msg as object != buffer
      modifies this`tail, this`count, this`waiting, buffer
      ensures Valid() && waiting == old(waiting) + [msg]
      ensures Queue() == old(Queue()) + [old(msg[..])]
    {
      NextSlot(tail, size);
      buffer[tail] := msg;
      tail := (tail + 1) % size;
      count := count + 1;
      waiting := waiting + [msg];
      ContentsUnchanged(old(waiting));
      ContentsAppend(old(waiting), msg);
    }

    method Take() returns (data: array<Byte>)
      requires Valid() && count > 0
      modifies this`head, this`count, this`waiting, buffer
      ensures Valid() && old(waiting) == [data] + waiting && data !in waiting && data as object != buffer
    {
      NextSlot(head, size);
      assert buffer[Slot(0)] == waiting[0] && waiting[0] in waiting;
      data := buffer[head];
      buffer[head] := null;
      head := (head + 1) % size;
      count := count - 1;
      waiting := waiting[1..];
      assert forall m <- waiting :: m in old(waiting);
    }

    /** The message is copied: what joins the buffer is a new slice, never the caller's. */
    method Write(data: array<Byte>) returns (accepted: bool)
      requires Valid()
      modifies this, buffer
      ensures Valid()
      ensures Step(Queue(), if accepted then Accepted else Full) == Apply(size, old(Queue()), Op.Write(old(data[..])))
      ensures forall m <- waiting :: m in old(waiting) || fresh(m)
    {
      if count == size {
        return false;
      }
      var msg := new Byte[data.Length](i requires 0 <= i < data.Length reads data => data[i]);
      assert msg[..] == data[..];
      ContentsUnchanged(waiting);
      Put(msg);
      accepted := true;
    }

    /** A slice that was read is no longer part of the buffer. */
    method Read() returns (data: array?<Byte>)
      requires Valid()
      modifies this, buffer
      ensures Valid()
      ensures Step(Queue(), if data == null then Nothing else Got(data[..])) == Apply(size, old(Queue()), Op.Read)
      ensures data != null ==> data in old(waiting) && data !in waiting && data as object != buffer
      ensures forall m <- waiting :: m in old(waiting)
    {
      if count == 0 {
        return null;
      }
      data := Take();
      ContentsUnchanged(old(waiting));
      ContentsTail(old(waiting));
      assert old(waiting)[1..] == waiting;
      assert data == old(waiting)[0];
    }
  }

  // ------------------------------------------------------------------
  // Every run of the object is a run of the queue
  // ------------------------------------------------------------------

  method Overwrite(slice: array<Byte>)
    modifies slice
    ensures forall i | 0 <= i < slice.Length :: slice[i] == 0
  {
    for i := 0 to slice.Length
      invariant forall j | 0 <= j < i :: slice[j] == 0
    {
      slice[i] := 0;
    }
  }

  /** Writes a message from a slice that the caller overwrites at once. */
  method WriteAndReuse(b: MessageBuffer, data: Message) returns (accepted: bool)
    requires b.Valid()
    modifies b, b.buffer
    ensures b.Valid() && (forall m <- b.waiting :: m in old(b.waiting) || fresh(m))
    ensures Step(b.Queue(), if accepted then Accepted else Full) == Apply(b.size, old(b.Queue()), Write(data))
  {
    var slice := new Byte[|data|](i requires 0 <= i < |data| => data[i]);
    assert slice[..] == data;
    ContentsUnchanged(b.waiting);
    accepted := b.Write(slice);
    label written:
    Overwrite(slice);
    ContentsUnchanged@written(b.waiting);
  }

  /** Reads a message into a slice that the caller keeps the contents of, then overwrites. */
  method ReadAndReuse(b: MessageBuffer) returns (answer: Answer)
    requires b.Valid()
    modifies b, b.buffer, set m | m in b.waiting
    ensures b.Valid() && (forall m <- b.waiting :: m in old(b.waiting))
    ensures Step(b.Queue(), answer) == Apply(b.size, old(b.Queue()), Read)
  {
    var slice := b.Read();
    if slice == null {
      return Nothing;
    }
    answer := Got(slice[..]);
    label taken:
    Overwrite(slice);
    ContentsUnchanged@taken(b.waiting);
  }

  method Perform(b: MessageBuffer, op: Op) returns (answer: Answer)
    requires b.Valid()
    modifies b, b.buffer, set m | m in b.waiting
    ensures b.Valid() && (forall m <- b.waiting :: m in old(b.waiting) || fresh(m))
    ensures Step(b.Queue(), answer) == Apply(b.size, old(b.Queue()), op)
  {
    match op
    case Write(data) =>
      var accepted := WriteAndReuse(b, data);
      answer := if accepted then Accepted else Full;
    case Read =>
      answer := ReadAndReuse(b);
  }

  /** Every run of the buffer answers as the queue does, with every slice overwritten by the
      caller as soon as it was written or read. */
  method Drive(size: nat, ops: seq<Op>) returns (b: MessageBuffer, answers: seq<Answer>)
    ensures fresh(b) && b.Valid() && b.size == size
    ensures Outcome(b.Queue(), answers) == After(size, ops)
  {
    b := new MessageBuffer(size);
    answers := [];
    for i := 0 to |ops|
      invariant fresh(b) && fresh(b.buffer) && b.Valid() && b.size == size
      invariant forall m | m in b.waiting :: fresh(m)
      invariant Outcome(b.Queue(), answers) == After(size, ops[..i])
    {
      assert ops[..i + 1][..i] == ops[..i];
      var answer := Perform(b, ops[i]);
      answers := answers + [answer];
    }
    assert ops[..|ops|] == ops;
  }
}
