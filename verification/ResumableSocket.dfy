/** packages/transport/src/resumable-socket.ts and the socket it wraps
    (packages/transport/src/ws-transport.ts, makeTypedSocket). */
module Replay {
  import opened Wire

  datatype ResumeResult = Replayed(count: nat) | Gap

  // ---- What the buffer means, in terms of everything ever emitted ----

  /** Event number `q` (counted from 1) is among the last `size` of `total`. */
  predicate Retained(total: nat, size: nat, q: int) {
    total - size < q <= total && 1 <= q
  }

  /** The answer to `resume(lastSeq)`. A buffer that can hold nothing is always
      empty, and an empty buffer answers ok. */
  function Answer(total: nat, size: nat, lastSeq: nat): ResumeResult {
    if size == 0 then Replayed(0)
    else if forall q :: lastSeq < q <= total ==> Retained(total, size, q)
    then Replayed(if lastSeq <= total then total - lastSeq else 0)
    else Gap
  }

  /** What a resume sends again: the log after `lastSeq`, unless there is a gap. */
  function Missed(log: seq<Event>, size: nat, lastSeq: nat): seq<Event> {
    if size == 0 || Answer(|log|, size, lastSeq).Gap? || |log| < lastSeq then [] else log[lastSeq..]
  }

  /** With room for at least one event, `resume(k)` reports a gap exactly when event
      k + 1 was emitted and has been evicted; otherwise it sends the log after k. */
  lemma GapIffNextEvicted(log: seq<Event>, size: nat, k: nat)
    requires size >= 1
    ensures Answer(|log|, size, k).Gap? <==> k + 1 <= |log| && !Retained(|log|, size, k + 1)
    ensures !Answer(|log|, size, k).Gap? ==>
              && Answer(|log|, size, k) == Replayed(|Missed(log, size, k)|)
              && (k <= |log| ==> log[..k] + Missed(log, size, k) == log)
  {
    if k + 1 <= |log| && !Retained(|log|, size, k + 1) {
      assert k < k + 1 <= |log|;
    } else {
      forall q | k < q <= |log| ensures Retained(|log|, size, q) {}
    }
  }

  // ---- The socket below: stamps a number that starts at 1 on every connection ----

  class TypedSocket {
    const id: string
    var open: bool
    var nextSeq: nat
    var sent: seq<Frame>

    ghost predicate Valid()
      reads this
    {
      nextSeq == |sent| && forall i :: 0 <= i < |sent| ==> sent[i].num == i + 1
    }

    constructor (id: string)
      ensures Valid() && this.id == id && open && sent == []
    {
      this.id := id;
      open, nextSeq, sent := true, 0, [];
    }

    method Emit(e: Event)
      requires Valid()
      modifies this
      ensures Valid() && open == old(open)
      ensures sent == old(sent) + (if open then Stamp(|old(sent)|, [e]) else [])
    {
      if !open { return; }
      nextSeq := nextSeq + 1;
      sent := sent + [Frame(nextSeq, e)];
    }
  }

  lemma StampOneMore(base: nat, events: seq<Event>, i: nat)
    requires i < |events|
    ensures Stamp(base, events[..i]) + Stamp(base + i, [events[i]]) == Stamp(base, events[..i + 1])
  {}

  lemma StampNone(sent: seq<Frame>, base: nat)
    ensures sent + Stamp(base, []) == sent
  {}

  // ---- ResumableSocket ----

  datatype BufferedEvent = BufferedEvent(num: nat, event: Event)

  class ResumableSocket {
    var inner: TypedSocket
    const bufferSize: nat
    var buffer: seq<BufferedEvent>
    var nextSeq: nat
    ghost var log: seq<Event>  // every event ever emitted

    ghost predicate Valid()
      reads this, inner
    {
      inner.Valid() && BufferOk()
    }

    /** The buffer holds, in order and numbered without holes, the last `bufferSize`
        events of the log. */
    ghost predicate BufferOk()
      reads this
    {
      && nextSeq == |log|
      && |buffer| == (if nextSeq < bufferSize then nextSeq else bufferSize)
      && forall i :: 0 <= i < |buffer| ==>
           var q := nextSeq - |buffer| + i + 1;
           buffer[i] == BufferedEvent(q, log[q - 1])
    }

    constructor (inner: TypedSocket, bufferSize: nat)
      requires inner.Valid()
      ensures Valid() && this.inner == inner && this.bufferSize == bufferSize && log == []
    {
      this.inner, this.bufferSize := inner, bufferSize;
      buffer, nextSeq, log := [], 0, [];
    }

    method Emit(e: Event)
      requires Valid()
      modifies this, inner
      ensures Valid() && inner == old(inner) && inner.open == old(inner.open)
      ensures log == old(log) + [e]
      ensures inner.sent == old(inner.sent) + (if inner.open then Stamp(|old(inner.sent)|, [e]) else [])
    {
      nextSeq := nextSeq + 1;
      buffer := buffer + [BufferedEvent(nextSeq, e)];
      log := log + [e];
      if |buffer| > bufferSize { buffer := buffer[1..]; }
      inner.Emit(e);
    }

    /** Nothing but the target changes: numbers and buffer survive a reconnect. */
    method Rebind(newInner: TypedSocket)
      requires Valid() && newInner.Valid()
      modifies this
      ensures Valid() && inner == newInner
      ensures log == old(log) && buffer == old(buffer) && nextSeq == old(nextSeq)
    {
      inner := newInner;
    }

    /** `buffer.findIndex((b) => b.seq > lastSeq)`; the length stands for -1. */
    method FindFirstAfter(lastSeq: nat) returns (start: nat)
      requires Valid()
      ensures start <= |buffer|
      ensures forall i :: 0 <= i < start ==> buffer[i].num <= lastSeq
      ensures start < |buffer| ==> buffer[start].num > lastSeq
    {
      start := 0;
      while start < |buffer| && buffer[start].num <= lastSeq
        invariant start <= |buffer|
        invariant forall i :: 0 <= i < start ==> buffer[i].num <= lastSeq
      {
        start := start + 1;
      }
    }

    /** Where the first unseen event sits in the buffer decides the answer. */
    lemma AnswerFromBuffer(lastSeq: nat, start: nat)
      requires BufferOk() && 0 < |buffer| && start <= |buffer|
      requires forall i :: 0 <= i < start ==> buffer[i].num <= lastSeq
      requires start < |buffer| ==> buffer[start].num > lastSeq
      ensures lastSeq < buffer[0].num - 1 ==>
                Answer(|log|, bufferSize, lastSeq) == Gap && Missed(log, bufferSize, lastSeq) == []
      ensures lastSeq >= buffer[0].num - 1 ==>
                && Answer(|log|, bufferSize, lastSeq) == Replayed(|buffer| - start)
                && |Missed(log, bufferSize, lastSeq)| == |buffer| - start
                && forall i :: start <= i < |buffer| ==> buffer[i].event == Missed(log, bufferSize, lastSeq)[i - start]
    {
      GapIffNextEvicted(log, bufferSize, lastSeq);
      if lastSeq >= buffer[0].num - 1 {
        FirstUnseen(lastSeq, start);
        forall i | start <= i < |buffer|
          ensures |Missed(log, bufferSize, lastSeq)| == |buffer| - start
          ensures buffer[i].event == Missed(log, bufferSize, lastSeq)[i - start]
        {
          assert buffer[i].event == log[|log| - |buffer| + i];
        }
      }
    }

    /** The first unseen event in the buffer is number lastSeq + 1, unless all have been seen. */
    lemma FirstUnseen(lastSeq: nat, start: nat)
      requires BufferOk() && 0 < |buffer| && start <= |buffer| && lastSeq >= buffer[0].num - 1
      requires forall i :: 0 <= i < start ==> buffer[i].num <= lastSeq
      requires start < |buffer| ==> buffer[start].num > lastSeq
      ensures if start == |buffer| then lastSeq >= |log| else lastSeq == |log| - |buffer| + start
    {
      if start == |buffer| {
        assert buffer[|buffer| - 1].num == |log|;
      } else if start > 0 {
        assert buffer[start - 1].num <= lastSeq;
      }
    }

    lemma AnswerFromEmptyBuffer(lastSeq: nat)
      requires BufferOk() && |buffer| == 0
      ensures Answer(|log|, bufferSize, lastSeq) == Replayed(0) && Missed(log, bufferSize, lastSeq) == []
    {}

    method Resume(lastSeq: nat) returns (r: ResumeResult)
      requires Valid()
      modifies inner
      ensures Valid() && inner.open == old(inner.open)
      ensures r == Answer(|log|, bufferSize, lastSeq)
      ensures inner.sent == old(inner.sent)
              + (if inner.open then Stamp(|old(inner.sent)|, Missed(log, bufferSize, lastSeq)) else [])
    {
      StampNone(inner.sent, |inner.sent|);
      if |buffer| == 0 {
        AnswerFromEmptyBuffer(lastSeq);
        return Replayed(0);
      }
      var start := FindFirstAfter(lastSeq);
      AnswerFromBuffer(lastSeq, start);
      if lastSeq < buffer[0].num - 1 { return Gap; }
      r := Replayed(|buffer| - start);
      SendAgain(buffer[start..], Missed(log, bufferSize, lastSeq));
    }

    /** The loop at the end of `resume`. */
    method SendAgain(toReplay: seq<BufferedEvent>, ghost events: seq<Event>)
      requires inner.Valid() && |toReplay| == |events|
      requires forall i :: 0 <= i < |events| ==> toReplay[i].event == events[i]
      modifies inner
      ensures inner.Valid() && inner.open == old(inner.open)
      ensures inner.sent == old(inner.sent) + (if inner.open then Stamp(|old(inner.sent)|, events) else [])
    {
      var i := 0;
      while i < |toReplay|
        invariant 0 <= i <= |toReplay|
        invariant inner.Valid() && inner.open == old(inner.open)
        invariant inner.sent == old(inner.sent) + (if inner.open then Stamp(|old(inner.sent)|, events[..i]) else [])
      {
        StampOneMore(|old(inner.sent)|, events, i);
        inner.Emit(toReplay[i].event);
        i := i + 1;
      }
      assert events[..i] == events;
    }

    method BufferSeqs() returns (seqs: seq<nat>)
      requires Valid()
      ensures |seqs| == (if |log| < bufferSize then |log| else bufferSize)
      ensures forall i :: 0 <= i < |seqs| ==> seqs[i] == |log| - |seqs| + i + 1
    {
      seqs := seq(|buffer|, i requires 0 <= i < |buffer| reads this => buffer[i].num);
    }
  }
}
