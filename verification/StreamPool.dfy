/**
  The pool of inference-request streams, `OVInferRequestsQueue`
  (src/ovinferrequestsqueue.cpp:22-56, src/ovinferrequestsqueue.hpp:49-57), one call at a time.
  The ring buffer with its queue of promises refines the abstract `Pool`.
 */
module StreamPool {
  import opened Collections

  /**
    `idle` in the order streams will be handed out; `waiting` the tickets of unfulfilled promises in the
    order they were made; `granted` what each fulfilled promise was given; `held` the streams that are out.
   */
  datatype Pool = Pool(idle: seq<int>, waiting: seq<nat>, granted: map<nat, int>, tickets: nat, held: set<int>)

  function Initial(n: nat): Pool {
    Pool(seq(n, i => i), [], map[], 0, {})
  }

  function Take(p: Pool): Pool {
    if p.idle == [] then p.(waiting := p.waiting + [p.tickets], tickets := p.tickets + 1)
    else Pool(p.idle[1..], p.waiting, p.granted[p.tickets := p.idle[0]], p.tickets + 1, p.held + {p.idle[0]})
  }

  function Give(p: Pool, id: int): Pool {
    if p.waiting == [] then p.(idle := p.idle + [id], held := p.held - {id})
    else p.(waiting := p.waiting[1..], granted := p.granted[p.waiting[0] := id])
  }

  /** Every stream is in exactly one place. */
  ghost predicate Conserved(p: Pool, n: nat) {
    && Distinct(p.idle)
    && |p.idle| + |p.held| == n
    && (forall id :: id in p.idle ==> id !in p.held)
    && (forall id :: (id in p.idle || id in p.held) <==> 0 <= id < n)
  }

  /** Promises are fulfilled in the order they were made: the fulfilled tickets are exactly the oldest ones. */
  ghost predicate Fair(p: Pool) {
    && |p.waiting| <= p.tickets
    && (forall i :: 0 <= i < |p.waiting| ==> p.waiting[i] == p.tickets - |p.waiting| + i)
    && (forall t: nat :: t in p.granted <==> t < p.tickets - |p.waiting|)
  }

  /** Nobody waits while a stream is idle. */
  ghost predicate WorkConserving(p: Pool) {
    p.waiting == [] || p.idle == []
  }

  ghost predicate Inv(p: Pool, n: nat) {
    Conserved(p, n) && Fair(p) && WorkConserving(p)
  }

  datatype Op = Taken | Given(id: int)

  ghost predicate Allowed(p: Pool, op: Op) {
    op.Given? ==> op.id in p.held
  }

  function Apply(p: Pool, op: Op): Pool {
    match op
    case Taken => Take(p)
    case Given(id) => Give(p, id)
  }

  lemma InitialInv(n: nat)
    ensures Inv(Initial(n), n)
  {
    var s := Initial(n).idle;
    forall id | 0 <= id < n ensures id in s {
      assert s[id] == id;
    }
  }

  lemma TakeInv(p: Pool, n: nat)
    requires Inv(p, n)
    ensures Inv(Take(p), n)
  {
    if p.idle != [] {
      var q := Take(p);
      var first := p.idle[0];
      assert first in p.idle;
      assert p.idle == [first] + q.idle;
      assert forall id :: id in q.idle ==> id in p.idle;
      assert first !in p.held;
    }
  }

  lemma GiveInv(p: Pool, n: nat, id: int)
    requires Inv(p, n) && id in p.held
    ensures Inv(Give(p, id), n)
  {
    if p.waiting == [] {
      assert |p.held - {id}| == |p.held| - 1;
      assert id !in p.idle;
    } else {
      var q := Give(p, id);
      assert forall i :: 0 <= i < |q.waiting| ==> q.waiting[i] == p.waiting[i + 1];
    }
  }

  ghost predicate IsRun(n: nat, ops: seq<Op>, states: seq<Pool>) {
    && |states| == |ops| + 1
    && states[0] == Initial(n)
    && forall i :: 0 <= i < |ops| ==> Allowed(states[i], ops[i]) && states[i + 1] == Apply(states[i], ops[i])
  }

  /** Every run of takes and gives keeps every stream in one place, serves in order and leaves none idle in vain. */
  lemma {:induction false} RunInv(n: nat, ops: seq<Op>, states: seq<Pool>, k: nat)
    requires IsRun(n, ops, states) && k <= |ops|
    ensures Inv(states[k], n)
  {
    if k == 0 {
      InitialInv(n);
    } else {
      RunInv(n, ops, states, k - 1);
      assert Allowed(states[k - 1], ops[k - 1]) && states[k - 1 + 1] == Apply(states[k - 1], ops[k - 1]);
      match ops[k - 1]
      case Taken => TakeInv(states[k - 1], n);
      case Given(id) => GiveInv(states[k - 1], n, id);
    }
  }

  /** First come, first served: a fulfilled promise was made before every unfulfilled one. */
  lemma FirstComeFirstServed(n: nat, ops: seq<Op>, states: seq<Pool>, k: nat, early: nat, late: nat)
    requires IsRun(n, ops, states) && k <= |ops|
    requires early < late < states[k].tickets && late in states[k].granted
    ensures early in states[k].granted
  {
    RunInv(n, ops, states, k);
  }

  // ----- the ring buffer -----

  /** The slot `i` places after `front` in a ring of `n` slots. */
  function Slot(front: nat, i: nat, n: nat): (s: nat)
    requires front < n && i <= n
    ensures s < n
  {
    if front + i < n then front + i else front + i - n
  }

  lemma NextSlot(front: nat, n: nat)
    requires front < n
    ensures (front + 1) % n == Slot(front, 1, n)
  {
    if front + 1 == n {
      assert (front + 1) % n == 0;
    } else {
      assert (front + 1) % n == front + 1;
    }
  }

  /** The idle streams are the cyclic segment from front to back; every other slot is consumed. */
  ghost predicate IsRing(slots: seq<int>, front: nat, back: nat, idle: seq<int>) {
    && front < |slots| && |idle| <= |slots|
    && (forall i :: 0 <= i < |idle| ==> slots[Slot(front, i, |slots|)] == idle[i])
    && (forall i :: |idle| <= i < |slots| ==> slots[Slot(front, i, |slots|)] == -1)
    && back == Slot(front, |idle|, |slots|)
  }

  lemma RingFront(slots: seq<int>, front: nat, back: nat, idle: seq<int>)
    requires IsRing(slots, front, back, idle) && forall id :: id in idle ==> id >= 0
    ensures slots[front] < 0 <==> idle == []
    ensures idle != [] ==> slots[front] == idle[0]
  {
    assert slots[Slot(front, 0, |slots|)] == slots[front];
    if idle != [] {
      assert idle[0] in idle;
    }
  }

  lemma RingTake(slots: seq<int>, front: nat, back: nat, idle: seq<int>)
    requires IsRing(slots, front, back, idle) && idle != []
    ensures IsRing(slots[front := -1], Slot(front, 1, |slots|), back, idle[1..])
  {
    var n, next, after := |slots|, Slot(front, 1, |slots|), slots[front := -1];
    forall i | 0 <= i < n ensures after[Slot(next, i, n)] == if i < |idle| - 1 then idle[i + 1] else -1 {
      if i == n - 1 {
        assert Slot(next, i, n) == front;
      } else {
        assert Slot(next, i, n) == Slot(front, i + 1, n) != front;
      }
    }
  }

  lemma RingGive(slots: seq<int>, front: nat, back: nat, idle: seq<int>, id: int)
    requires IsRing(slots, front, back, idle) && |idle| < |slots|
    ensures slots[back] == -1
    ensures IsRing(slots[back := id], front, Slot(back, 1, |slots|), idle + [id])
  {
    var n, after := |slots|, slots[back := id];
    forall i | 0 <= i < n
      ensures after[Slot(front, i, n)] == if i < |idle| then idle[i] else if i == |idle| then id else -1
    {
      assert i != |idle| ==> Slot(front, i, n) != back;
    }
  }

  class OVInferRequestsQueue {
    var streams: array<int>
    var frontIdx: nat
    var backIdx: nat
    var promises: seq<nat>
    var fulfilled: map<nat, int>
    var issued: nat
    ghost var idle: seq<int>
    ghost var held: set<int>

    ghost function Abs(): Pool
      reads this
    {
      Pool(idle, promises, fulfilled, issued, held)
    }

    ghost predicate Valid()
      reads this, streams
    {
      && streams.Length > 0
      && IsRing(streams[..], frontIdx, backIdx, idle)
      && Inv(Abs(), streams.Length)
    }

    constructor (streamsLength: nat)
      requires streamsLength > 0
      ensures Valid() && fresh(streams) && streams.Length == streamsLength && Abs() == Initial(streamsLength)
    {
      streams := new int[streamsLength](i => i);
      frontIdx, backIdx, promises, fulfilled, issued := 0, 0, [], map[], 0;
      idle, held := Initial(streamsLength).idle, {};
      InitialInv(streamsLength);
    }

    /** Hands out a future, named by its ticket; the future is ready when the ticket is fulfilled. */
    method GetIdleStream() returns (ticket: nat)
      requires Valid()
      modifies this, streams
      ensures Valid() && streams == old(streams)
      ensures ticket == old(issued) && Abs() == Take(old(Abs()))
    {
      hide IsRing, Inv;
      TakeInv(Abs(), streams.Length);
      RingFacts(streams[..], frontIdx, backIdx, Abs(), streams.Length);
      ticket := issued;
      issued := issued + 1;
      if streams[frontIdx] < 0 {
        promises := promises + [ticket];
      } else {
        RingTake(streams[..], frontIdx, backIdx, idle);
        NextSlot(frontIdx, streams.Length);
        var value := streams[frontIdx];
        ghost var emptied := streams[..][frontIdx := -1];
        streams[frontIdx] := -1;
        assert streams[..] == emptied;
        frontIdx := (frontIdx + 1) % streams.Length;
        fulfilled := fulfilled[ticket := value];
        idle, held := idle[1..], held + {value};
      }
    }

    /** The stream goes to the oldest waiter, or to the back of the ring: never over a slot that holds a stream. */
    method ReturnStream(id: int)
      requires Valid() && id in held
      modifies this, streams
      ensures Valid() && streams == old(streams)
      ensures Abs() == Give(old(Abs()), id)
      ensures old(promises) == [] ==>
                old(backIdx) < streams.Length && old(streams[backIdx]) == -1 && streams[old(backIdx)] == id
    {
      hide IsRing, Inv;
      GiveInv(Abs(), streams.Length, id);
      if |promises| > 0 {
        fulfilled := fulfilled[promises[0] := id];
        promises := promises[1..];
        return;
      }
      RingFacts(streams[..], frontIdx, backIdx, Abs(), streams.Length);
      RingGive(streams[..], frontIdx, backIdx, idle, id);
      NextSlot(backIdx, streams.Length);
      ghost var filled := streams[..][backIdx := id];
      var oldBack := backIdx;
      backIdx := (oldBack + 1) % streams.Length;
      streams[oldBack] := id;
      assert streams[..] == filled;
      idle, held := idle + [id], held - {id};
    }
  }

  lemma RingFacts(slots: seq<int>, front: nat, back: nat, p: Pool, n: nat)
    requires IsRing(slots, front, back, p.idle) && Inv(p, n) && n == |slots|
    ensures front < n && back < n
    ensures slots[front] < 0 <==> p.idle == []
    ensures p.idle != [] ==> slots[front] == p.idle[0]
    ensures p.held != {} ==> |p.idle| < n
  {
    RingFront(slots, front, back, p.idle);
  }
}
