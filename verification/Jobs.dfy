/** Jobs and the bounded ring that carries them (src/jobcache/jobcache.c). */
module Jobs {
  import opened Basics
  import opened RingIndex

  datatype Kind = AgentChat | CronRun | Webhook | Ping | OtherKind

  const PAYLOAD_LEN := 8192

  /** A context identifies the stack record that `response_ctx` points to. */
  type Ctx = nat

  /** `payload` is the whole fixed buffer; `ctx` is None when there is no callback. */
  datatype Job = Job(kind: Kind, instance: string, payload: string, payloadLen: nat, ctx: Option<Ctx>)

  ghost predicate ValidJob(j: Job) {
    |j.payload| == PAYLOAD_LEN
  }

  /** What a slot holds after jobcache_push copied `j`: the terminator is forced when it fits. */
  function Stored(j: Job): (r: Job)
    requires ValidJob(j)
    ensures ValidJob(r)
    ensures r.kind == j.kind && r.instance == j.instance && r.payloadLen == j.payloadLen && r.ctx == j.ctx
    ensures forall i :: 0 <= i < PAYLOAD_LEN && i != j.payloadLen ==> r.payload[i] == j.payload[i]
    ensures j.payloadLen < PAYLOAD_LEN ==> r.payload[j.payloadLen] == '\0'
  {
    if j.payloadLen < PAYLOAD_LEN then j.(payload := j.payload[j.payloadLen := '\0']) else j
  }

  /** The ring of jobcache.c. The mutex makes each method body one atomic step. */
  class Ring {
    const slots: array<Job>
    const capacity: nat
    var head: nat
    var tail: nat
    var count: nat

    ghost predicate Valid()
      reads this, slots
    {
      && 0 < capacity == slots.Length
      && head < capacity
      && count <= capacity
      && tail == Wrap(head + count, capacity)
      && (forall j <- Window(slots[..], head, count) :: ValidJob(j))
    }

    /** The queued jobs, oldest first. */
    ghost function Contents(): (q: seq<Job>)
      requires Valid()
      reads this, slots
      ensures |q| == count
    {
      Window(slots[..], head, count)
    }

    constructor (maxSize: nat, filler: Job)
      requires 0 < maxSize
      ensures Valid() && fresh(slots) && capacity == maxSize && Contents() == []
    {
      slots := new Job[maxSize](_ => filler);
      capacity := maxSize;
      head, tail, count := 0, 0, 0;
    }

    /** jobcache_create: a zero capacity yields no ring. */
    static method Create(maxSize: nat, filler: Job) returns (r: Ring?)
      ensures r == null <==> maxSize == 0
      ensures r != null ==> fresh(r) && fresh(r.slots) && r.Valid() && r.capacity == maxSize && r.Contents() == []
    {
      if maxSize == 0 {
        r := null;
      } else {
        r := new Ring(maxSize, filler);
      }
    }

    /** The part of jobcache_push after the wait loop. */
    method Push(job: Job)
      requires Valid() && ValidJob(job) && count < capacity
      modifies this, slots
      ensures Valid()
      ensures tail == (head + count) % capacity
      ensures Contents() == old(Contents()) + [Stored(job)]
    {
      WindowAppend(slots[..], head, count, Stored(job));
      slots[tail] := Stored(job);
      ModIsWrap(tail + 1, capacity);
      tail := (tail + 1) % capacity;
      count := count + 1;
      ModIsWrap(head + count, capacity);
    }

    /** jobcache_pop once the queue is known to be nonempty. */
    method Pop() returns (job: Job)
      requires Valid() && 0 < count
      modifies this
      ensures Valid()
      ensures tail == (head + count) % capacity
      ensures [job] + Contents() == old(Contents())
    {
      WindowDrop(slots[..], head, count);
      job := slots[head];
      ModIsWrap(head + 1, capacity);
      head := (head + 1) % capacity;
      count := count - 1;
      ModIsWrap(head + count, capacity);
    }

    method Depth() returns (n: nat)
      requires Valid()
      ensures n == |Contents()|
    {
      n := count;
    }
  }
}
