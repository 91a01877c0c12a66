/** The bounded byte queues: utility/ringbuffer.c, the receive enqueue of warp/rs485.c and the masked
    enqueue of the bootloader all implement one FIFO that drops the newest byte when it is full. */
module Ringbuffers {
  import opened Wrappers
  import opened Quotients

  const WORD: nat := 0x1_0000_0000

  // ----- The ring as a value ------------------------------------------------------------------------

  datatype Ring = Ring(start: nat, end: nat, size: nat, overflows: nat, lowWatermark: nat, memory: seq<bv8>)

  // Sizes up to 32768 keep start + used within sixteen bits.
  predicate Valid(r: Ring) {
    2 <= r.size <= 32768 && |r.memory| == r.size && r.start < r.size && r.end < r.size && r.overflows < WORD
  }

  function Used(r: Ring): nat
    requires Valid(r)
  {
    if r.end < r.start then r.size + r.end - r.start else r.end - r.start
  }

  function Free(r: Ring): nat
    requires Valid(r)
  {
    r.size - Used(r)
  }

  // ringbuffer_get_free notes the smallest free count it has returned.
  function NoteFree(r: Ring): Ring
    requires Valid(r)
  {
    r.(lowWatermark := Min(r.lowWatermark, Free(r)))
  }

  function Next(r: Ring, i: nat): nat { if i + 1 >= r.size then 0 else i + 1 }

  // ringbuffer_add: write, advance, and step back if that made the ring look empty.
  function Add(r: Ring, b: bv8): (Ring, bool)
    requires Valid(r)
  {
    var memory, end := r.memory[r.end := b], Next(r, r.end);
    if end == r.start then
      (r.(memory := memory, end := if end == 0 then r.size - 1 else end - 1, overflows := (r.overflows + 1) % WORD),
       false)
    else
      (r.(memory := memory, end := end), true)
  }

  // The enqueue of rs485_rx_irq_handler and rs485_tick; error_count_overrun counts what is thrown away.
  function RxEnqueue(r: Ring, b: bv8): Ring
    requires Valid(r)
  {
    var end := Next(r, r.end);
    if end == r.start then r.(overflows := (r.overflows + 1) % WORD) else r.(memory := r.memory[r.end := b], end := end)
  }

  // The enqueue of SPITFP_IRQ_RX_HANDLER; masking with a power of two less one is the remainder.
  function MaskedEnqueue(r: Ring, b: bv8): Ring
    requires Valid(r)
  {
    var memory, end := r.memory[r.end := b], (r.end + 1) % r.size;
    if end == r.start then
      r.(memory := memory, end := (end - 1) % r.size, overflows := (r.overflows + 1) % WORD)
    else
      r.(memory := memory, end := end)
  }

  function Remove(r: Ring, n: nat): Ring
    requires Valid(r)
  {
    var start := r.start + Min(Used(r), n);
    r.(start := if start >= r.size then start - r.size else start)
  }

  function Get(r: Ring): (Ring, Option<bv8>)
    requires Valid(r)
  {
    if r.start == r.end then (r, None) else (r.(start := Next(r, r.start)), Some(r.memory[r.start]))
  }

  function Reset(r: Ring): Ring {
    r.(overflows := 0, start := 0, end := 0, lowWatermark := r.size)
  }

  // ----- The queue it stands for -----------------------------------------------------------------------

  datatype Fifo = Fifo(items: seq<bv8>, capacity: nat, dropped: nat)

  function Push(q: Fifo, b: bv8): Fifo {
    if |q.items| < q.capacity then q.(items := q.items + [b]) else q.(dropped := (q.dropped + 1) % WORD)
  }

  function Slot(r: Ring, i: nat): nat { if r.start + i >= r.size then r.start + i - r.size else r.start + i }

  function Items(r: Ring): (items: seq<bv8>)
    requires Valid(r)
    ensures |items| == Used(r) < r.size
  {
    seq(Used(r), i requires 0 <= i < Used(r) => r.memory[Slot(r, i)])
  }

  // A ring of `size` slots holds at most size - 1 bytes.
  function Queue(r: Ring): Fifo
    requires Valid(r)
  {
    Fifo(Items(r), r.size - 1, r.overflows)
  }

  lemma AddRefines(r: Ring, b: bv8)
    requires Valid(r)
    ensures Valid(Add(r, b).0)
    ensures Queue(Add(r, b).0) == Push(Queue(r), b)
    ensures Add(r, b).1 == (|Items(r)| < r.size - 1)
  {
    var after := Add(r, b).0;
    assert Items(after) == Push(Queue(r), b).items;
  }

  lemma RxEnqueueRefines(r: Ring, b: bv8)
    requires Valid(r)
    ensures Valid(RxEnqueue(r, b)) && Queue(RxEnqueue(r, b)) == Push(Queue(r), b)
  {
    assert Items(RxEnqueue(r, b)) == Push(Queue(r), b).items;
  }

  lemma MaskedIndex(x: int, size: nat)
    requires size > 1 && -1 <= x <= size
    ensures x % size == if x == -1 then size - 1 else if x == size then 0 else x
  {
    if x == -1 {
      QuotientUnique(x, size, -1, size - 1);
    } else if x == size {
      QuotientUnique(x, size, 1, 0);
    } else {
      QuotientUnique(x, size, 0, x);
    }
  }

  // The masked enqueue and ringbuffer_add leave the very same ring.
  lemma MaskedEnqueueIsAdd(r: Ring, b: bv8)
    requires Valid(r)
    ensures MaskedEnqueue(r, b) == Add(r, b).0
  {
    MaskedIndex(r.end + 1, r.size);
    MaskedIndex(r.start - 1, r.size);
  }

  lemma GetRefines(r: Ring)
    requires Valid(r)
    ensures Valid(Get(r).0)
    ensures if Items(r) == [] then Get(r) == (r, None)
            else Get(r).1 == Some(Items(r)[0]) && Queue(Get(r).0) == Queue(r).(items := Items(r)[1..])
  {
    if r.start != r.end {
      assert Items(Get(r).0) == Items(r)[1..];
    }
  }

  lemma RemoveRefines(r: Ring, n: nat)
    requires Valid(r)
    ensures Valid(Remove(r, n))
    ensures Queue(Remove(r, n)) == Queue(r).(items := Items(r)[Min(|Items(r)|, n)..])
  {
    assert Items(Remove(r, n)) == Items(r)[Min(|Items(r)|, n)..];
  }

  // ----- Every operation sequence -------------------------------------------------------------------

  datatype Op =
    | OpAdd(b: bv8) | OpRx(b: bv8) | OpMasked(b: bv8)
    | OpGet | OpRemove(n: nat) | OpUsed | OpIsFull | OpIsEmpty

  datatype Answer = Silent | Flag(on: bool) | Byte(b: bv8) | Number(n: nat)

  function RingStep(r: Ring, op: Op): (Ring, Answer)
    requires Valid(r)
  {
    match op
    case OpAdd(b) => (Add(r, b).0, Flag(Add(r, b).1))
    case OpRx(b) => (RxEnqueue(r, b), Silent)
    case OpMasked(b) => (MaskedEnqueue(r, b), Silent)
    case OpGet => (Get(r).0, if Get(r).1.None? then Flag(false) else Byte(Get(r).1.value))
    case OpRemove(n) => (Remove(r, n), Silent)
    case OpUsed => (r, Number(Used(r)))
    case OpIsFull => (NoteFree(r), Flag(Free(r) < 2))
    case OpIsEmpty => (r, Flag(r.start == r.end))
  }

  function FifoStep(q: Fifo, op: Op): (Fifo, Answer) {
    match op
    case OpAdd(b) => (Push(q, b), Flag(|q.items| < q.capacity))
    case OpRx(b) => (Push(q, b), Silent)
    case OpMasked(b) => (Push(q, b), Silent)
    case OpGet => if q.items == [] then (q, Flag(false)) else (q.(items := q.items[1..]), Byte(q.items[0]))
    case OpRemove(n) => (q.(items := q.items[Min(|q.items|, n)..]), Silent)
    case OpUsed => (q, Number(|q.items|))
    case OpIsFull => (q, Flag(|q.items| >= q.capacity))
    case OpIsEmpty => (q, Flag(q.items == []))
  }

  lemma StepRefines(r: Ring, op: Op)
    requires Valid(r)
    ensures Valid(RingStep(r, op).0)
    ensures (Queue(RingStep(r, op).0), RingStep(r, op).1) == FifoStep(Queue(r), op)
  {
    match op
    case OpAdd(b) => AddRefines(r, b);
    case OpRx(b) => RxEnqueueRefines(r, b);
    case OpMasked(b) => MaskedEnqueueIsAdd(r, b); AddRefines(r, b);
    case OpGet => GetRefines(r);
    case OpRemove(n) => RemoveRefines(r, n);
    case OpUsed =>
    case OpIsFull => assert Items(NoteFree(r)) == Items(r);
    case OpIsEmpty =>
  }

  function RunRing(r: Ring, ops: seq<Op>): (result: (Ring, seq<Answer>))
    requires Valid(r)
    ensures Valid(result.0)
    decreases |ops|
  {
    if ops == [] then (r, []) else
    StepRefines(r, ops[0]);
    var (next, answer) := RingStep(r, ops[0]);
    var (last, answers) := RunRing(next, ops[1..]);
    (last, [answer] + answers)
  }

  function RunFifo(q: Fifo, ops: seq<Op>): (Fifo, seq<Answer>)
    decreases |ops|
  {
    if ops == [] then (q, []) else
    var (next, answer) := FifoStep(q, ops[0]);
    var (last, answers) := RunFifo(next, ops[1..]);
    (last, [answer] + answers)
  }

  // Whatever sequence of operations is run, with any mixture of the three enqueues, ring and queue
  // give the same answers and end up in agreement.
  lemma {:induction false} RunRefines(r: Ring, ops: seq<Op>)
    requires Valid(r)
    ensures (Queue(RunRing(r, ops).0), RunRing(r, ops).1) == RunFifo(Queue(r), ops)
    decreases |ops|
  {
    hide RingStep, FifoStep, Queue, Valid;
    if ops != [] {
      StepRefines(r, ops[0]);
      RunRefines(RingStep(r, ops[0]).0, ops[1..]);
    }
  }

  // ----- The ring in place ----------------------------------------------------------------------------

  class Ringbuffer {
    var overflows: nat
    var start: nat
    var end: nat
    const size: nat
    var lowWatermark: nat
    const buffer: array<bv8>

    ghost function View(): Ring
      reads this, buffer
    {
      Ring(start, end, size, overflows, lowWatermark, buffer[..])
    }

    ghost predicate IsValid()
      reads this, buffer
    {
      Valid(View())
    }

    constructor (size: nat)
      requires 2 <= size <= 32768
      ensures IsValid() && fresh(buffer) && this.size == size
      ensures View() == Reset(View()) && forall i :: 0 <= i < size ==> buffer[i] == 0
    {
      this.size := size;
      overflows, start, end, lowWatermark := 0, 0, 0, size;
      buffer := new bv8[size](i => 0);
    }

    // ringbuffer_init keeps the bytes in memory.
    method Init()
      modifies this
      ensures View() == Reset(old(View()))
    {
      overflows, start, end := 0, 0, 0;
      lowWatermark := size;
    }

    method GetUsed() returns (used: nat)
      requires IsValid()
      ensures used == |Items(View())|
    {
      if end < start {
        return size + end - start;
      }
      return end - start;
    }

    method GetFree() returns (free: nat)
      requires IsValid()
      modifies this`lowWatermark
      ensures View() == NoteFree(old(View())) && free == size - |Items(View())|
    {
      var used := GetUsed();
      free := size - used;
      if free < lowWatermark {
        lowWatermark := free;
      }
    }

    method IsEmpty() returns (empty: bool)
      requires IsValid()
      ensures empty == (Items(View()) == [])
    {
      return start == end;
    }

    method IsFull() returns (full: bool)
      requires IsValid()
      modifies this`lowWatermark
      ensures View() == NoteFree(old(View())) && full == (|Items(View())| == size - 1)
    {
      var free := GetFree();
      return free < 2;
    }

    method Append(data: bv8) returns (ok: bool)
      requires IsValid()
      modifies this`end, this`overflows, buffer
      ensures IsValid() && (View(), ok) == Add(old(View()), data)
      ensures Queue(View()) == Push(old(Queue(View())), data)
    {
      AddRefines(View(), data);
      buffer[end] := data;
      end := end + 1;
      if end >= size {
        end := 0;
      }
      if end == start {
        overflows := (overflows + 1) % WORD;
        if end == 0 {
          end := size - 1;
        } else {
          end := end - 1;
        }
        return false;
      }
      return true;
    }

    method RemoveFront(num: nat)
      requires IsValid()
      modifies this`start
      ensures IsValid() && View() == Remove(old(View()), num)
      ensures Queue(View()) == old(Queue(View())).(items := old(Items(View()))[Min(|old(Items(View()))|, num)..])
    {
      RemoveRefines(View(), num);
      var used := GetUsed();
      start := start + Min(used, num);
      if start >= size {
        start := start - size;
      }
    }

    method Take() returns (data: Option<bv8>)
      requires IsValid()
      modifies this`start
      ensures IsValid() && (View(), data) == Get(old(View()))
    {
      GetRefines(View());
      var empty := IsEmpty();
      if empty {
        return None;
      }
      data := Some(buffer[start]);
      start := start + 1;
      if start >= size {
        start := 0;
      }
    }

    // One round of the loop in rs485_rx_irq_handler and rs485_tick.
    method Receive(data: bv8)
      requires IsValid()
      modifies this`end, this`overflows, buffer
      ensures IsValid() && View() == RxEnqueue(old(View()), data)
      ensures Queue(View()) == Push(old(Queue(View())), data)
    {
      RxEnqueueRefines(View(), data);
      var newEnd := end + 1;
      if newEnd >= size {
        newEnd := 0;
      }
      if newEnd == start {
        overflows := (overflows + 1) % WORD;
      } else {
        buffer[end] := data;
        end := newEnd;
      }
    }

    // One round of the loop in SPITFP_IRQ_RX_HANDLER.
    method ReceiveMasked(data: bv8)
      requires IsValid()
      modifies this`end, this`overflows, buffer
      ensures IsValid() && View() == MaskedEnqueue(old(View()), data)
      ensures Queue(View()) == Push(old(Queue(View())), data)
    {
      MaskedEnqueueIsAdd(View(), data);
      AddRefines(View(), data);
      buffer[end] := data;
      end := (end + 1) % size;
      if end == start {
        overflows := (overflows + 1) % WORD;
        end := (end - 1) % size;
      }
    }
  }
}
