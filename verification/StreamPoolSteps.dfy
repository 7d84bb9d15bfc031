/**
  The stream pool under concurrency (src/ovinferrequestsqueue.cpp:22-56): any number of clients, each
  running `getIdleStream` and later `returnStream`, interleaved at the granularity of lock
  operations and single shared accesses.  A failed compare-exchange changes nothing and is not a step.
 */
module StreamPoolSteps {
  import opened Wrappers
  import opened Collections
  import opened StreamPool

  /** Where a client is; `v` is the stream id it carries. */
  datatype Pc =
    | Called                           // getIdleStream entered, line 26 next
    | FrontLocked                      // owns front_mut, line 27 next
    | CanTake                          // saw an idle stream, line 31 next
    | Read(v: int)                     // line 32 next
    | Emptied(v: int)                  // line 33 next
    | Advanced(v: int)                 // line 34 next
    | Unlocked(v: int)                 // line 35 next
    | MustWait                         // saw none, line 28 next
    | Queueing                         // owns both locks, line 29 next
    | Pushed                           // promise queued, both locks to release
    | QueueReleased                    // front_mut to release
    | Got                              // the future has been returned
    | Returning(v: int)                // returnStream entered, line 41 next
    | QueueLocked(v: int)              // owns queue_mutex, line 42 next
    | Popped(v: int, to: nat)          // line 45 next
    | Delivering(v: int, to: nat)      // line 46 next
    | NoWaiter(v: int)                 // line 49 next
    | Loaded(v: int, oldBack: nat)     // line 50 next
    | Swapped(v: int, oldBack: nat)    // line 55 next
    | Written                          // queue_mutex to release
    | Finished

  /** `futures` holds the values set and not yet taken, by client. */
  datatype State = State(streams: seq<int>, front: nat, back: nat, promises: seq<nat>,
                         frontMut: Option<nat>, queueMut: Option<nat>,
                         futures: map<nat, int>, clients: map<nat, Pc>)

  predicate WellSized(s: State) {
    s.front < |s.streams| && s.back < |s.streams|
  }

  function Start(n: nat): State {
    State(seq(n, i => i), 0, 0, [], None, None, map[], map[])
  }

  /** Client `c` can take its next step. */
  predicate Enabled(s: State, c: nat) {
    c in s.clients ==>
      match s.clients[c]
      case Called => s.frontMut.None?
      case MustWait => s.queueMut.None?
      case Returning(_) => s.queueMut.None?
      case Got => c in s.futures
      case Finished => false
      case _ => true
  }

  function At(s: State, c: nat, pc: Pc): State {
    s.(clients := s.clients[c := pc])
  }

  /** Inside `returnStream`. */
  predicate Giving(pc: Pc) {
    || pc.Returning? || pc.QueueLocked? || pc.Popped? || pc.Delivering? || pc.NoWaiter? || pc.Loaded? || pc.Swapped?
    || pc.Written? || pc.Finished?
  }

  /** The next step of a client inside `getIdleStream`, or holding its future. */
  function TakeStep(s: State, c: nat, pc: Pc): State
    requires WellSized(s) && !Giving(pc) && (pc.Got? ==> c in s.futures)
  {
    match pc
    case Called => At(s, c, FrontLocked).(frontMut := Some(c))
    case FrontLocked => At(s, c, if s.streams[s.front] < 0 then MustWait else CanTake)
    case CanTake => At(s, c, Read(s.streams[s.front]))
    case Read(v) => At(s, c, Emptied(v)).(streams := s.streams[s.front := -1])
    case Emptied(v) => At(s, c, Advanced(v)).(front := Slot(s.front, 1, |s.streams|))
    case Advanced(v) => At(s, c, Unlocked(v)).(frontMut := None)
    case Unlocked(v) => At(s, c, Got).(futures := s.futures[c := v])
    case MustWait => At(s, c, Queueing).(queueMut := Some(c))
    case Queueing => At(s, c, Pushed).(promises := s.promises + [c])
    case Pushed => At(s, c, QueueReleased).(queueMut := None)
    case QueueReleased => At(s, c, Got).(frontMut := None)
    case Got => At(s, c, Returning(s.futures[c])).(futures := s.futures - {c})
  }

  /** The next step of a client inside `returnStream`. */
  function GiveStep(s: State, c: nat, pc: Pc): State
    requires WellSized(s) && Giving(pc)
  {
    match pc
    case Returning(v) => At(s, c, QueueLocked(v)).(queueMut := Some(c))
    case QueueLocked(v) =>
      if s.promises != [] then At(s, c, Popped(v, s.promises[0])).(promises := s.promises[1..])
      else At(s, c, NoWaiter(v))
    case Popped(v, to) => At(s, c, Delivering(v, to)).(queueMut := None)
    case Delivering(v, to) => At(s, c, Finished).(futures := s.futures[to := v])
    case NoWaiter(v) => At(s, c, Loaded(v, s.back))
    case Loaded(v, b) =>
      if s.back == b then At(s, c, Swapped(v, b)).(back := Slot(b, 1, |s.streams|)) else At(s, c, Loaded(v, s.back))
    case Swapped(v, b) => if b < |s.streams| then At(s, c, Written).(streams := s.streams[b := v]) else s
    case Written => At(s, c, Finished).(queueMut := None)
    case Finished => s
  }

  /** The next step of client `c`; a new client enters `getIdleStream`. */
  function Do(s: State, c: nat): State
    requires WellSized(s) && Enabled(s, c)
  {
    if c !in s.clients then At(s, c, Called)
    else if Giving(s.clients[c]) then GiveStep(s, c, s.clients[c])
    else TakeStep(s, c, s.clients[c])
  }

  // ----- the invariant -----

  predicate OwnsFront(pc: Pc) {
    pc.FrontLocked? || pc.CanTake? || pc.Read? || pc.Emptied? || pc.Advanced? || pc.MustWait? || pc.Queueing?
        || pc.Pushed? || pc.QueueReleased?
  }

  predicate OwnsQueue(pc: Pc) {
    pc.Queueing? || pc.Pushed? || pc.QueueLocked? || pc.Popped? || pc.NoWaiter? || pc.Loaded? || pc.Swapped?
        || pc.Written?
  }

  ghost predicate Locks(s: State) {
    && (forall c :: c in s.clients ==> (OwnsFront(s.clients[c]) <==> s.frontMut == Some(c)))
    && (forall c :: c in s.clients ==> (OwnsQueue(s.clients[c]) <==> s.queueMut == Some(c)))
    && (s.frontMut.Some? ==> s.frontMut.value in s.clients)
    && (s.queueMut.Some? ==> s.queueMut.value in s.clients)
  }

  /** A client whose promise is in the queue, being served, or served. */
  predicate HasPromise(pc: Pc) {
    pc.Pushed? || pc.QueueReleased? || pc.Got?
  }

  /** The client whose promise a returning client has taken from the queue and not yet fulfilled. */
  function Target(pc: Pc): Option<nat> {
    match pc
    case Popped(_, to) => Some(to)
    case Delivering(_, to) => Some(to)
    case _ => None
  }

  ghost predicate Served(s: State, r: nat)
    requires r in s.clients
  {
    Target(s.clients[r]).Some? ==>
      var to := Target(s.clients[r]).value;
      to in s.clients && HasPromise(s.clients[to]) && to !in s.futures && to !in s.promises
  }

  ghost predicate Queued(s: State, c: nat) {
    c in s.clients && HasPromise(s.clients[c]) && c !in s.futures
  }

  predicate SawNoWaiter(pc: Pc) {
    pc.NoWaiter? || pc.Loaded? || pc.Swapped?
  }

  /** Each promise is in one place: queued, in the hands of one returning client, or fulfilled. */
  ghost predicate Promises(s: State) {
    && Distinct(s.promises)
    && (forall c :: c in s.promises ==> Queued(s, c))
    && (forall r :: r in s.clients ==> Served(s, r))
    && OneServer(s)
    && (forall c :: c in s.futures ==> c in s.clients && HasPromise(s.clients[c]))
    && (forall c :: c in s.clients && SawNoWaiter(s.clients[c]) ==> s.promises == [])
  }

  ghost predicate OneServer(s: State) {
    forall r, q :: r in s.clients && q in s.clients && r != q && Target(s.clients[r]).Some? ==>
                     Target(s.clients[r]) != Target(s.clients[q])
  }

  datatype Place = InSlot(k: nat) | InHand(c: nat) | InFuture(c: nat)

  /** The stream a client is responsible for.  Until the slot is emptied the slot is. */
  function Carried(pc: Pc): Option<int> {
    match pc
    case Emptied(v) => Some(v)
    case Advanced(v) => Some(v)
    case Unlocked(v) => Some(v)
    case Returning(v) => Some(v)
    case QueueLocked(v) => Some(v)
    case Popped(v, _) => Some(v)
    case Delivering(v, _) => Some(v)
    case NoWaiter(v) => Some(v)
    case Loaded(v, _) => Some(v)
    case Swapped(v, _) => Some(v)
    case _ => None
  }

  /** Stream `id` is at place `p`. */
  predicate IsAt(s: State, p: Place, id: int) {
    match p
    case InSlot(k) => k < |s.streams| && s.streams[k] == id
    case InHand(c) => c in s.clients && Carried(s.clients[c]) == Some(id)
    case InFuture(c) => c in s.futures && s.futures[c] == id
  }

  /** `place` locates every stream, and nothing else is anywhere. */
  ghost predicate Places(s: State, place: map<int, Place>) {
    && (forall id :: id in place <==> 0 <= id < |s.streams|)
    && (forall k :: 0 <= k < |s.streams| ==> s.streams[k] >= -1)
    && (forall p, id :: IsAt(s, p, id) && !(p.InSlot? && id == -1) ==> id in place && place[id] == p)
    && (forall id :: id in place ==> IsAt(s, place[id], id))
  }

  predicate FrontEmptied(s: State) {
    s.frontMut.Some? && s.frontMut.value in s.clients && s.clients[s.frontMut.value].Emptied?
  }

  predicate BackSwapped(s: State) {
    s.queueMut.Some? && s.queueMut.value in s.clients && s.clients[s.queueMut.value].Swapped?
  }

  /**
    The slots from front hold `len` streams up to back, except that the first may just have been
    emptied and the last may be reserved and not yet written.
   */
  ghost predicate Ring(s: State, len: nat) {
    && WellSized(s) && len <= |s.streams|
    && s.back == Slot(s.front, len, |s.streams|)
    && (forall i :: len <= i < |s.streams| ==> s.streams[Slot(s.front, i, |s.streams|)] == -1)
    && (forall i :: 0 <= i < len ==>
          || s.streams[Slot(s.front, i, |s.streams|)] >= 0
          || (i == 0 && FrontEmptied(s))
          || (i == len - 1 && BackSwapped(s)))
    && (FrontEmptied(s) ==> len > 0 && s.streams[s.front] == -1 && (BackSwapped(s) ==> len > 1))
    && (BackSwapped(s) ==> len > 0 && s.streams[Slot(s.front, len - 1, |s.streams|)] == -1)
  }

  /** What the local copies are worth. */
  ghost predicate Locals(s: State, len: nat)
    requires WellSized(s) && len <= |s.streams|
  {
    forall c :: c in s.clients ==> LocalOk(s, len, s.clients[c])
  }

  ghost predicate LocalOk(s: State, len: nat, pc: Pc)
    requires WellSized(s) && len <= |s.streams|
  {
    match pc
    case CanTake => s.streams[s.front] >= 0
    case Read(v) => s.streams[s.front] == v >= 0
    case Loaded(_, b) => b == s.back
    case Swapped(_, b) => len > 0 && b == Slot(s.front, len - 1, |s.streams|)
    case _ => true
  }

  ghost predicate Good(s: State, len: nat, place: map<int, Place>) {
    Locks(s) && Promises(s) && Ring(s, len) && Locals(s, len) && Places(s, place)
  }

  lemma StartGood(n: nat) returns (place: map<int, Place>)
    requires n > 0
    ensures Good(Start(n), n, place)
  {
    place := map id: int | 0 <= id < n :: InSlot(id);
    assert forall i :: 0 <= i < n ==> Slot(0, i, n) == i;
  }

  // ----- locks -----

  predicate MutexStep(before: Option<nat>, c: nat, owned: bool, owns: bool, after: Option<nat>) {
    if owns then after == Some(c) && (owned || before.None?)
    else if owned then after == None
    else after == before
  }

  function PcOf(s: State, c: nat): Pc {
    if c in s.clients then s.clients[c] else Finished
  }

  /** Only client `c` moved, and the locks went with it. */
  predicate LockStep(s: State, c: nat, t: State) {
    && c in t.clients && t.clients == s.clients[c := t.clients[c]]
    && MutexStep(s.frontMut, c, OwnsFront(PcOf(s, c)), OwnsFront(t.clients[c]), t.frontMut)
    && MutexStep(s.queueMut, c, OwnsQueue(PcOf(s, c)), OwnsQueue(t.clients[c]), t.queueMut)
  }

  /** The locks are where the client's place in the code says. */
  predicate OwnLocks(s: State, c: nat) {
    c in s.clients ==>
      && (OwnsFront(s.clients[c]) <==> s.frontMut == Some(c))
      && (OwnsQueue(s.clients[c]) <==> s.queueMut == Some(c))
  }

  lemma TakeLockStep(s: State, c: nat)
    requires WellSized(s) && Enabled(s, c) && OwnLocks(s, c) && c in s.clients && !Giving(s.clients[c])
    ensures LockStep(s, c, TakeStep(s, c, s.clients[c]))
  {
  }

  lemma GiveLockStep(s: State, c: nat)
    requires WellSized(s) && Enabled(s, c) && OwnLocks(s, c) && c in s.clients && Giving(s.clients[c])
    requires s.clients[c].Swapped? ==> s.clients[c].oldBack < |s.streams|
    ensures LockStep(s, c, GiveStep(s, c, s.clients[c]))
  {
  }

  lemma DoLockStep(s: State, c: nat)
    requires WellSized(s) && Enabled(s, c) && OwnLocks(s, c)
    requires c in s.clients && s.clients[c].Swapped? ==> s.clients[c].oldBack < |s.streams|
    ensures LockStep(s, c, Do(s, c))
  {
    hide TakeStep, GiveStep;
    if c in s.clients {
      if Giving(s.clients[c]) {
        GiveLockStep(s, c);
      } else {
        TakeLockStep(s, c);
      }
      hide LockStep, Enabled, OwnLocks, Giving;
    }
  }

  lemma LockStepKeeps(s: State, c: nat, t: State)
    requires Locks(s) && LockStep(s, c, t)
    ensures Locks(t)
  {
  }

  lemma StepLocks(s: State, len: nat, c: nat)
    requires WellSized(s) && len <= |s.streams| && Locks(s) && Locals(s, len) && Enabled(s, c)
    ensures LockStep(s, c, Do(s, c)) && Locks(Do(s, c))
  {
    DoLockStep(s, c);
    hide Do;
    LockStepKeeps(s, c, Do(s, c));
  }

  // ----- promises -----

  /** Steps that touch neither the queue of promises nor the futures. */
  predicate KeepsPromises(s: State, c: nat, t: State) {
    && c in t.clients && t.clients == s.clients[c := t.clients[c]]
    && t.promises == s.promises && t.futures == s.futures
    && (HasPromise(PcOf(s, c)) ==> HasPromise(t.clients[c]))
    && (Target(t.clients[c]).Some? ==> Target(t.clients[c]) == Target(PcOf(s, c)))
    && (SawNoWaiter(t.clients[c]) ==> s.promises == [])
  }

  lemma PromisesKept(s: State, c: nat, t: State)
    requires Promises(s) && KeepsPromises(s, c, t)
    ensures Promises(t)
  {
    hide Distinct, HasPromise, Target, SawNoWaiter;
    forall r | r in t.clients ensures Served(t, r) {
      assert r in s.clients ==> Served(s, r);
      assert r !in s.clients ==> Target(t.clients[r]).Some? ==> Target(Finished).Some?;
      NoTarget();
    }
    forall x | x in t.promises ensures Queued(t, x) {
      assert Queued(s, x);
    }
    NoTarget();
  }

  lemma NoTarget()
    ensures Target(Finished).None?
  {
  }

  lemma PromisePushed(s: State, c: nat)
    requires Promises(s) && Locks(s) && c in s.clients && s.clients[c].Queueing?
    ensures Promises(At(s, c, Pushed).(promises := s.promises + [c]))
  {
    var t := At(s, c, Pushed).(promises := s.promises + [c]);
    assert c in s.promises ==> Queued(s, c);
    forall r | r in t.clients ensures Served(t, r) {
      assert Served(s, r);
    }
    forall x | x in t.promises ensures Queued(t, x) {
      assert x != c ==> Queued(s, x);
    }
  }

  lemma PromisePopped(s: State, c: nat, v: int)
    requires Promises(s) && Locks(s) && c in s.clients && s.clients[c] == QueueLocked(v) && s.promises != []
    ensures Promises(At(s, c, Popped(v, s.promises[0])).(promises := s.promises[1..]))
  {
    var first, rest := s.promises[0], s.promises[1..];
    var t := At(s, c, Popped(v, first)).(promises := rest);
    FirstOut(s.promises);
    assert Queued(s, first);
    forall r | r in t.clients ensures Served(t, r) {
      assert Served(s, r);
    }
    forall r, q | r in t.clients && q in t.clients && r != q && Target(t.clients[r]).Some?
      ensures Target(t.clients[r]) != Target(t.clients[q])
    {
      assert Served(s, r) && Served(s, q);
    }
    forall x | x in t.promises ensures Queued(t, x) {
      assert Queued(s, x);
    }
  }

  lemma FirstOut(q: seq<nat>)
    requires q != [] && Distinct(q)
    ensures q[0] in q && q[0] !in q[1..] && Distinct(q[1..])
    ensures forall x :: x in q[1..] ==> x in q
  {
  }

  lemma PromiseFulfilled(s: State, c: nat, v: int, to: nat)
    requires Promises(s) && c in s.clients && s.clients[c] == Delivering(v, to)
    ensures Promises(At(s, c, Finished).(futures := s.futures[to := v]))
  {
    hide Distinct;
    var t := At(s, c, Finished).(futures := s.futures[to := v]);
    assert Served(s, c) && Target(s.clients[c]) == Some(to);
    forall r | r in t.clients ensures Served(t, r) {
      assert Served(s, r);
      assert r != c ==> Target(s.clients[r]) != Some(to);
    }
    forall x | x in t.promises ensures Queued(t, x) {
      assert Queued(s, x);
    }
  }

  lemma FutureSet(s: State, c: nat, v: int)
    requires Promises(s) && c in s.clients && s.clients[c] == Unlocked(v)
    ensures Promises(At(s, c, Got).(futures := s.futures[c := v]))
  {
    hide Distinct;
    var t := At(s, c, Got).(futures := s.futures[c := v]);
    forall r | r in t.clients ensures Served(t, r) {
      assert Served(s, r);
    }
    forall x | x in t.promises ensures Queued(t, x) {
      assert Queued(s, x);
    }
  }

  lemma FutureTaken(s: State, c: nat)
    requires Promises(s) && c in s.clients && s.clients[c] == Got && c in s.futures
    ensures Promises(At(s, c, Returning(s.futures[c])).(futures := s.futures - {c}))
  {
    hide Distinct;
    var t := At(s, c, Returning(s.futures[c])).(futures := s.futures - {c});
    forall r | r in t.clients ensures Served(t, r) {
      assert Served(s, r);
    }
    forall x | x in t.promises ensures Queued(t, x) {
      assert Queued(s, x);
    }
  }

  lemma StepPromises(s: State, len: nat, c: nat)
    requires WellSized(s) && len <= |s.streams| && Locks(s) && Promises(s) && Locals(s, len) && Enabled(s, c)
    ensures Promises(Do(s, c))
  {
    hide Promises, Locks;
    if c !in s.clients {
      PromisesKept(s, c, Do(s, c));
    } else if Giving(s.clients[c]) {
      GivePromises(s, len, c);
    } else if s.clients[c].Queueing? {
      PromisePushed(s, c);
    } else if s.clients[c].Unlocked? {
      FutureSet(s, c, s.clients[c].v);
    } else if s.clients[c].Got? {
      FutureTaken(s, c);
    } else {
      PromisesKept(s, c, Do(s, c));
    }
  }

  lemma GivePromises(s: State, len: nat, c: nat)
    requires WellSized(s) && len <= |s.streams| && Locks(s) && Promises(s) && Locals(s, len) && Enabled(s, c)
    requires c in s.clients && Giving(s.clients[c])
    ensures Promises(Do(s, c))
  {
    hide Promises, Locks;
    var pc := s.clients[c];
    if pc.Delivering? {
      PromiseFulfilled(s, c, pc.v, pc.to);
    } else if pc.QueueLocked? && s.promises != [] {
      PromisePopped(s, c, pc.v);
    } else if !pc.Finished? {
      if pc.NoWaiter? || pc.Loaded? {
        QueueStaysEmpty(s, c);
      }
      PromisesKept(s, c, Do(s, c));
    }
  }

  lemma QueueStaysEmpty(s: State, c: nat)
    requires Promises(s) && c in s.clients && (s.clients[c].NoWaiter? || s.clients[c].Loaded? || s.clients[c].Swapped?)
    ensures s.promises == []
  {
  }

  // ----- the ring -----

  lemma RingQuiet(s: State, len: nat, c: nat, t: State)
    requires Ring(s, len) && Locals(s, len) && Locks(s) && LockStep(s, c, t)
    requires t.streams == s.streams && t.front == s.front && t.back == s.back
    requires !PcOf(s, c).Emptied? && !t.clients[c].Emptied? && !PcOf(s, c).Swapped? && !t.clients[c].Swapped?
    requires LocalOk(s, len, t.clients[c])
    ensures Ring(t, len) && Locals(t, len)
  {
    assert FrontEmptied(t) == FrontEmptied(s) && BackSwapped(t) == BackSwapped(s);
    forall d | d in t.clients ensures LocalOk(t, len, t.clients[d]) {
      assert d != c ==> LocalOk(s, len, s.clients[d]);
    }
  }

  /** Line 32: the front slot is consumed. */
  lemma RingEmptied(s: State, len: nat, c: nat, v: int)
    requires Ring(s, len) && Locals(s, len) && Locks(s) && c in s.clients && s.clients[c] == Read(v)
    ensures Ring(At(s, c, Emptied(v)).(streams := s.streams[s.front := -1]), len)
    ensures Locals(At(s, c, Emptied(v)).(streams := s.streams[s.front := -1]), len)
  {
    var t, n := At(s, c, Emptied(v)).(streams := s.streams[s.front := -1]), |s.streams|;
    assert LocalOk(s, len, s.clients[c]);
    assert Slot(s.front, 0, n) == s.front && len > 0;
    assert forall i :: 0 < i < n ==> Slot(s.front, i, n) != s.front;
    assert BackSwapped(t) == BackSwapped(s);
    forall d | d in t.clients ensures LocalOk(t, len, t.clients[d]) {
      assert d != c ==> LocalOk(s, len, s.clients[d]) && !OwnsFront(s.clients[d]);
    }
  }

  /** Line 33: the front moves past the consumed slot. */
  lemma RingAdvanced(s: State, len: nat, c: nat, v: int)
    requires Ring(s, len) && Locals(s, len) && Locks(s) && c in s.clients && s.clients[c] == Emptied(v)
    ensures len > 0
    ensures Ring(At(s, c, Advanced(v)).(front := Slot(s.front, 1, |s.streams|)), len - 1)
    ensures Locals(At(s, c, Advanced(v)).(front := Slot(s.front, 1, |s.streams|)), len - 1)
  {
    var n, next := |s.streams|, Slot(s.front, 1, |s.streams|);
    var t := At(s, c, Advanced(v)).(front := next);
    assert FrontEmptied(s) && !FrontEmptied(t) && BackSwapped(t) == BackSwapped(s);
    forall i | 0 <= i < n - 1 ensures Slot(next, i, n) == Slot(s.front, Shifted(i), n) {
    }
    assert Slot(next, n - 1, n) == s.front;
    forall d | d in t.clients ensures LocalOk(t, len - 1, t.clients[d]) {
      assert d != c ==> LocalOk(s, len, s.clients[d]) && !OwnsFront(s.clients[d]);
      if d != c && s.clients[d].Swapped? {
        assert s.queueMut == Some(d) && BackSwapped(s);
      }
    }
  }

  function Shifted(i: nat): nat {
    i + 1
  }

  /** Line 50: the back moves over a slot that is free. */
  lemma RingSwapped(s: State, len: nat, c: nat, v: int, b: nat)
    requires Ring(s, len) && Locals(s, len) && Locks(s) && c in s.clients && s.clients[c] == Loaded(v, b)
    requires len < |s.streams|
    ensures s.back == b && s.streams[b] == -1
    ensures Ring(At(s, c, Swapped(v, b)).(back := Slot(b, 1, |s.streams|)), len + 1)
    ensures Locals(At(s, c, Swapped(v, b)).(back := Slot(b, 1, |s.streams|)), len + 1)
  {
    var n := |s.streams|;
    var t := At(s, c, Swapped(v, b)).(back := Slot(b, 1, n));
    assert LocalOk(s, len, s.clients[c]);
    assert s.queueMut == Some(c) && !BackSwapped(s) && BackSwapped(t) && FrontEmptied(t) == FrontEmptied(s);
    forall d | d in t.clients ensures LocalOk(t, len + 1, t.clients[d]) {
      assert d != c ==> LocalOk(s, len, s.clients[d]) && !OwnsQueue(s.clients[d]);
    }
  }

  /** Line 55: the reserved slot is filled. */
  lemma RingWritten(s: State, len: nat, c: nat, v: int, b: nat)
    requires Ring(s, len) && Locals(s, len) && Locks(s) && c in s.clients && s.clients[c] == Swapped(v, b) && v >= 0
    ensures b < |s.streams| && s.streams[b] == -1
    ensures Ring(At(s, c, Written).(streams := s.streams[b := v]), len)
    ensures Locals(At(s, c, Written).(streams := s.streams[b := v]), len)
  {
    var n := |s.streams|;
    var t := At(s, c, Written).(streams := s.streams[b := v]);
    assert LocalOk(s, len, s.clients[c]);
    assert s.queueMut == Some(c) && BackSwapped(s) && !BackSwapped(t) && FrontEmptied(t) == FrontEmptied(s);
    assert forall i :: 0 <= i < n && i != len - 1 ==> Slot(s.front, i, n) != b;
    assert Slot(s.front, 0, n) == s.front;
    forall d | d in t.clients ensures LocalOk(t, len, t.clients[d]) {
      assert d != c ==> LocalOk(s, len, s.clients[d]) && !OwnsQueue(s.clients[d]);
    }
  }

  // ----- places -----

  /** What is where in `t` is what was where in `s`, except that `v` went from `p` to `q`. */
  ghost predicate Moved(s: State, t: State, v: int, p: Place, q: Place) {
    forall r: Place, id: int :: !(r.InSlot? && id == -1) ==>
                      (IsAt(t, r, id) <==> (IsAt(s, r, id) && r != p) || (r == q && id == v))
  }

  lemma PlacesMoved(s: State, t: State, place: map<int, Place>, v: int, p: Place, q: Place)
    requires Places(s, place) && |t.streams| == |s.streams| && v != -1
    requires forall k :: 0 <= k < |t.streams| ==> t.streams[k] >= -1
    requires IsAt(s, p, v) && (forall id :: IsAt(s, p, id) ==> id == v) && Moved(s, t, v, p, q)
    ensures Places(t, place[v := q])
  {
    hide IsAt;
    var after := place[v := q];
    assert v in place && place[v] == p;
    forall r: Place, id: int | IsAt(t, r, id) && !(r.InSlot? && id == -1) ensures id in after && after[id] == r {
      assert r != q ==> IsAt(s, r, id) && r != p;
    }
    forall id | id in after ensures IsAt(t, after[id], id) {
      if id != v {
        assert IsAt(s, place[id], id);
        assert place[id] != p;
      }
    }
  }

  lemma PlacesQuiet(s: State, c: nat, t: State, place: map<int, Place>)
    requires Places(s, place) && t.streams == s.streams && t.futures == s.futures
    requires c in t.clients && t.clients == s.clients[c := t.clients[c]] && Carried(t.clients[c]) == Carried(PcOf(s, c))
    ensures Places(t, place)
  {
    forall p, id ensures IsAt(t, p, id) <==> IsAt(s, p, id) {
    }
    hide IsAt;
  }

  lemma CarriedInRange(s: State, place: map<int, Place>, c: nat, v: int)
    requires Places(s, place) && c in s.clients && Carried(s.clients[c]) == Some(v)
    ensures 0 <= v < |s.streams| && place[v] == InHand(c)
  {
    assert IsAt(s, InHand(c), v);
  }

  /** A stream waits in at most as many slots as there are: while one is being returned, a slot is free. */
  lemma RoomToReturn(s: State, len: nat, place: map<int, Place>, c: nat, v: int, b: nat)
    requires Good(s, len, place) && c in s.clients && s.clients[c] == Loaded(v, b)
    ensures len < |s.streams|
  {
    var n := |s.streams|;
    CarriedInRange(s, place, c, v);
    if len == n {
      var ids := seq(n, k requires 0 <= k < n => StandsFor(s, k));
      assert s.queueMut == Some(c) && !BackSwapped(s);
      forall k | 0 <= k < n ensures ids[k] in place && ids[k] != v && place[ids[k]] == StandsAt(s, k) {
        SlotAccounted(s, len, place, c, v, k);
      }
      forall j, k | 0 <= j < k < n ensures ids[j] != ids[k] {
        assert StandsAt(s, j) != StandsAt(s, k) by {
          OneEmptySlot(s, len, j, k);
        }
      }
      FewerIds(ids, n, v);
    }
  }

  /** The stream a slot is used up by: its own, or the one just taken out of it. */
  function StandsFor(s: State, k: nat): int
    requires k < |s.streams|
  {
    if s.streams[k] >= 0 then s.streams[k]
    else if FrontEmptied(s) then s.clients[s.frontMut.value].v
    else 0
  }

  function StandsAt(s: State, k: nat): Place
    requires k < |s.streams|
  {
    if s.streams[k] >= 0 then InSlot(k)
    else if FrontEmptied(s) then InHand(s.frontMut.value)
    else InSlot(k)
  }

  lemma SlotNumber(front: nat, k: nat, n: nat) returns (i: nat)
    requires front < n && k < n
    ensures i < n && Slot(front, i, n) == k
  {
    i := if k >= front then k - front else k + n - front;
  }

  lemma SlotAccounted(s: State, len: nat, place: map<int, Place>, c: nat, v: int, k: nat)
    requires Good(s, len, place) && len == |s.streams| && !BackSwapped(s) && k < |s.streams|
    requires c in s.clients && s.clients[c].Loaded? && s.clients[c].v == v
    ensures StandsFor(s, k) in place && StandsFor(s, k) != v && place[StandsFor(s, k)] == StandsAt(s, k)
  {
    hide Locks, Promises, Locals;
    CarriedInRange(s, place, c, v);
    var i := SlotNumber(s.front, k, |s.streams|);
    if s.streams[k] >= 0 {
      assert IsAt(s, InSlot(k), s.streams[k]);
    } else {
      assert FrontEmptied(s);
      var e := s.frontMut.value;
      CarriedInRange(s, place, e, s.clients[e].v);
    }
  }

  lemma OneEmptySlot(s: State, len: nat, j: nat, k: nat)
    requires Ring(s, len) && len == |s.streams| && !BackSwapped(s) && j < k < |s.streams|
    ensures StandsAt(s, j) != StandsAt(s, k)
  {
    var x := SlotNumber(s.front, j, |s.streams|);
    var y := SlotNumber(s.front, k, |s.streams|);
  }

  lemma FewerIds(ids: seq<int>, n: nat, v: int)
    requires Distinct(ids) && 0 <= v < n && forall k :: 0 <= k < |ids| ==> 0 <= ids[k] < n && ids[k] != v
    ensures |ids| < n
  {
    var all: set<int> := Range(n);
    DistinctCardinality(ids);
    assert Elems(ids) <= all - {v};
    SubsetCardinality(Elems(ids), all - {v});
    assert |all - {v}| == n - 1;
  }

  // ----- every step, every run -----

  /** The client's step neither touches slots, indices nor futures, nor passes a stream on. */
  predicate IsQuiet(pc: Pc) {
    !pc.Read? && !pc.Emptied? && !pc.Unlocked? && !pc.Got? && !pc.Delivering? && !pc.Loaded? && !pc.Swapped?
        && !pc.Finished?
  }

  lemma QuietStep(s: State, len: nat, place: map<int, Place>, c: nat)
    requires Good(s, len, place) && Enabled(s, c) && (c in s.clients ==> IsQuiet(s.clients[c]))
    ensures Ring(Do(s, c), len) && Locals(Do(s, c), len) && Places(Do(s, c), place)
  {
    StepLocks(s, len, c);
    QuietFacts(s, len, c);
    hide Do, Locks, Promises, Ring, Locals, Places, LockStep, IsQuiet, Enabled;
    RingQuiet(s, len, c, Do(s, c));
    PlacesQuiet(s, c, Do(s, c), place);
  }

  /** What a quiet step leaves as it was. */
  ghost predicate Quiet(s: State, len: nat, c: nat, t: State)
    requires WellSized(s) && len <= |s.streams|
  {
    && t.streams == s.streams && t.front == s.front && t.back == s.back && t.futures == s.futures
    && c in t.clients && t.clients == s.clients[c := t.clients[c]]
    && Carried(t.clients[c]) == Carried(PcOf(s, c))
    && !PcOf(s, c).Emptied? && !t.clients[c].Emptied? && !PcOf(s, c).Swapped? && !t.clients[c].Swapped?
    && LocalOk(s, len, t.clients[c])
  }

  lemma QuietTake(s: State, len: nat, c: nat)
    requires WellSized(s) && len <= |s.streams| && c in s.clients && !Giving(s.clients[c])
    requires IsQuiet(s.clients[c]) && LocalOk(s, len, s.clients[c])
    ensures Quiet(s, len, c, TakeStep(s, c, s.clients[c]))
  {
  }

  lemma QuietGive(s: State, len: nat, c: nat)
    requires WellSized(s) && len <= |s.streams| && c in s.clients && Giving(s.clients[c])
    requires IsQuiet(s.clients[c]) && LocalOk(s, len, s.clients[c])
    ensures Quiet(s, len, c, GiveStep(s, c, s.clients[c]))
  {
  }

  lemma QuietFacts(s: State, len: nat, c: nat)
    requires WellSized(s) && len <= |s.streams| && Enabled(s, c) && (c in s.clients ==> IsQuiet(s.clients[c]))
    requires c in s.clients ==> LocalOk(s, len, s.clients[c])
    ensures Quiet(s, len, c, Do(s, c))
  {
    hide TakeStep, GiveStep, Enabled;
    if c in s.clients {
      if Giving(s.clients[c]) {
        QuietGive(s, len, c);
      } else {
        QuietTake(s, len, c);
      }
      hide Quiet, Giving, IsQuiet, LocalOk;
    }
  }

  lemma EmptiedPlaces(s: State, place: map<int, Place>, c: nat, v: int)
    requires WellSized(s) && Places(s, place) && c in s.clients && s.clients[c] == Read(v)
             && s.streams[s.front] == v >= 0
    ensures Places(At(s, c, Emptied(v)).(streams := s.streams[s.front := -1]), place[v := InHand(c)])
  {
    var t := At(s, c, Emptied(v)).(streams := s.streams[s.front := -1]);
    PlacesMoved(s, t, place, v, InSlot(s.front), InHand(c));
  }

  lemma WrittenPlaces(s: State, place: map<int, Place>, c: nat, v: int, b: nat)
    requires WellSized(s) && Places(s, place) && c in s.clients && s.clients[c] == Swapped(v, b) && v >= 0
    requires b < |s.streams| && s.streams[b] == -1
    ensures Places(At(s, c, Written).(streams := s.streams[b := v]), place[v := InSlot(b)])
  {
    var t := At(s, c, Written).(streams := s.streams[b := v]);
    PlacesMoved(s, t, place, v, InHand(c), InSlot(b));
  }

  lemma SetPlaces(s: State, place: map<int, Place>, c: nat, v: int, to: nat, pc: Pc)
    requires Places(s, place) && c in s.clients && Carried(s.clients[c]) == Some(v) && v >= 0
    requires to !in s.futures && Carried(pc).None?
    ensures Places(At(s, c, pc).(futures := s.futures[to := v]), place[v := InFuture(to)])
  {
    var t := At(s, c, pc).(futures := s.futures[to := v]);
    PlacesMoved(s, t, place, v, InHand(c), InFuture(to));
  }

  lemma TakenPlaces(s: State, place: map<int, Place>, c: nat, v: int)
    requires Places(s, place) && c in s.clients && s.clients[c] == Got && c in s.futures && s.futures[c] == v && v >= 0
    ensures Places(At(s, c, Returning(v)).(futures := s.futures - {c}), place[v := InHand(c)])
  {
    var t := At(s, c, Returning(v)).(futures := s.futures - {c});
    PlacesMoved(s, t, place, v, InFuture(c), InHand(c));
  }

  lemma FutureFree(s: State, c: nat, to: nat)
    requires Promises(s) && c in s.clients && Target(s.clients[c]) == Some(to)
    ensures to !in s.futures
  {
    assert Served(s, c);
  }

  lemma UnlockedFree(s: State, c: nat)
    requires Promises(s) && c in s.clients && s.clients[c].Unlocked?
    ensures c !in s.futures
  {
  }

  /** One step of one client: the invariant moves on with the stream that moved. */
  lemma StepGood(s: State, len: nat, place: map<int, Place>, c: nat) returns (len': nat, place': map<int, Place>)
    requires Good(s, len, place) && Enabled(s, c)
    ensures Good(Do(s, c), len', place')
  {
    StepLocks(s, len, c);
    StepPromises(s, len, c);
    hide Do, Locks, Promises, Ring, Locals, Places, LockStep, Enabled, IsQuiet;
    if c !in s.clients || IsQuiet(s.clients[c]) {
      QuietStep(s, len, place, c);
      len', place' := len, place;
    } else if Giving(s.clients[c]) {
      len', place' := GivingStep(s, len, place, c);
    } else {
      len', place' := TakingStep(s, len, place, c);
    }
  }

  lemma TakingStep(s: State, len: nat, place: map<int, Place>, c: nat) returns (len': nat, place': map<int, Place>)
    requires Good(s, len, place) && Enabled(s, c) && c in s.clients && !IsQuiet(s.clients[c]) && !Giving(s.clients[c])
    ensures Ring(Do(s, c), len') && Locals(Do(s, c), len') && Places(Do(s, c), place')
  {
    hide Do, Locks, Promises, Ring, Locals, Places;
    match s.clients[c]
    case Read(v) => len', place' := ReadStep(s, len, place, c, v);
    case Emptied(v) => len', place' := EmptiedStep(s, len, place, c, v);
    case Unlocked(v) =>
      UnlockedFree(s, c);
      len', place' := FutureStep(s, len, place, c, v, c, Got);
    case Got => len', place' := GotStep(s, len, place, c);
  }

  lemma GivingStep(s: State, len: nat, place: map<int, Place>, c: nat) returns (len': nat, place': map<int, Place>)
    requires Good(s, len, place) && Enabled(s, c) && c in s.clients && !IsQuiet(s.clients[c]) && Giving(s.clients[c])
    ensures Ring(Do(s, c), len') && Locals(Do(s, c), len') && Places(Do(s, c), place')
  {
    hide Do, Locks, Promises, Ring, Locals, Places;
    match s.clients[c]
    case Delivering(v, to) =>
      FutureFree(s, c, to);
      len', place' := FutureStep(s, len, place, c, v, to, Finished);
    case Loaded(v, b) => len', place' := LoadedStep(s, len, place, c, v, b);
    case Swapped(v, b) => len', place' := SwappedStep(s, len, place, c, v, b);
  }

  lemma ReadStep(s: State, len: nat, place: map<int, Place>, c: nat, v: int)
    returns (len': nat, place': map<int, Place>)
    requires Good(s, len, place) && c in s.clients && s.clients[c] == Read(v)
    ensures Ring(Do(s, c), len') && Locals(Do(s, c), len') && Places(Do(s, c), place')
  {
    len', place' := len, place[v := InHand(c)];
    assert LocalOk(s, len, s.clients[c]);
    RingEmptied(s, len, c, v);
    EmptiedPlaces(s, place, c, v);
  }

  lemma EmptiedStep(s: State, len: nat, place: map<int, Place>, c: nat, v: int)
    returns (len': nat, place': map<int, Place>)
    requires Good(s, len, place) && c in s.clients && s.clients[c] == Emptied(v)
    ensures Ring(Do(s, c), len') && Locals(Do(s, c), len') && Places(Do(s, c), place')
  {
    RingAdvanced(s, len, c, v);
    PlacesQuiet(s, c, Do(s, c), place);
    len', place' := len - 1, place;
  }

  lemma FutureStep(s: State, len: nat, place: map<int, Place>, c: nat, v: int, to: nat, pc: Pc)
    returns (len': nat, place': map<int, Place>)
    requires Good(s, len, place) && c in s.clients && to !in s.futures
    requires (s.clients[c] == Unlocked(v) && to == c && pc == Got)
             || (s.clients[c] == Delivering(v, to) && pc == Finished)
    ensures Ring(Do(s, c), len') && Locals(Do(s, c), len') && Places(Do(s, c), place')
  {
    StepLocks(s, len, c);
    CarriedInRange(s, place, c, v);
    RingQuiet(s, len, c, Do(s, c));
    SetPlaces(s, place, c, v, to, pc);
    len', place' := len, place[v := InFuture(to)];
  }

  lemma GotStep(s: State, len: nat, place: map<int, Place>, c: nat) returns (len': nat, place': map<int, Place>)
    requires Good(s, len, place) && c in s.clients && s.clients[c] == Got && c in s.futures
    ensures Ring(Do(s, c), len') && Locals(Do(s, c), len') && Places(Do(s, c), place')
  {
    var v := s.futures[c];
    StepLocks(s, len, c);
    assert IsAt(s, InFuture(c), v);
    RingQuiet(s, len, c, Do(s, c));
    TakenPlaces(s, place, c, v);
    len', place' := len, place[v := InHand(c)];
  }

  lemma LoadedStep(s: State, len: nat, place: map<int, Place>, c: nat, v: int, b: nat)
    returns (len': nat, place': map<int, Place>)
    requires Good(s, len, place) && c in s.clients && s.clients[c] == Loaded(v, b)
    ensures Ring(Do(s, c), len') && Locals(Do(s, c), len') && Places(Do(s, c), place')
  {
    RoomToReturn(s, len, place, c, v, b);
    RingSwapped(s, len, c, v, b);
    PlacesQuiet(s, c, Do(s, c), place);
    len', place' := len + 1, place;
  }

  lemma SwappedStep(s: State, len: nat, place: map<int, Place>, c: nat, v: int, b: nat)
    returns (len': nat, place': map<int, Place>)
    requires Good(s, len, place) && c in s.clients && s.clients[c] == Swapped(v, b)
    ensures b < |s.streams| && s.streams[b] == -1
    ensures Ring(Do(s, c), len') && Locals(Do(s, c), len') && Places(Do(s, c), place')
  {
    CarriedInRange(s, place, c, v);
    RingWritten(s, len, c, v, b);
    WrittenPlaces(s, place, c, v, b);
    len', place' := len, place[v := InSlot(b)];
  }

  lemma StreamsStay(s: State, len: nat, place: map<int, Place>, c: nat)
    requires Good(s, len, place) && Enabled(s, c)
    ensures |Do(s, c).streams| == |s.streams|
  {
    hide Locks, Promises, Locals, Places;
  }

  /** `schedule` says whose turn it is; the run follows it from the initial pool of `n` streams. */
  ghost predicate IsRun(n: nat, schedule: seq<nat>, states: seq<State>) {
    && |states| == |schedule| + 1
    && states[0] == Start(n)
    && forall i :: 0 <= i < |schedule| ==>
         WellSized(states[i]) && Enabled(states[i], schedule[i]) && states[i + 1] == Do(states[i], schedule[i])
  }

  lemma {:induction false} RunGood(n: nat, schedule: seq<nat>, states: seq<State>, k: nat)
    returns (len: nat, place: map<int, Place>)
    requires n > 0 && IsRun(n, schedule, states) && k <= |schedule|
    ensures Good(states[k], len, place) && |states[k].streams| == n
  {
    if k == 0 {
      place := StartGood(n);
      len := n;
    } else {
      var len0, place0 := RunGood(n, schedule, states, k - 1);
      StreamsStay(states[k - 1], len0, place0, schedule[k - 1]);
      hide Do, Locks, Promises, Ring, Locals, Places, Enabled;
      assert states[k - 1 + 1] == Do(states[k - 1], schedule[k - 1]);
      len, place := StepGood(states[k - 1], len0, place0, schedule[k - 1]);
    }
  }

  /**
    Conservation and exclusivity: in every reachable state every stream id is in exactly one place,
    a slot, one client's hands or one future.
   */
  lemma EveryStreamInOnePlace(n: nat, schedule: seq<nat>, states: seq<State>, k: nat, id: int)
    requires n > 0 && IsRun(n, schedule, states) && k <= |schedule|
    ensures 0 <= id < n ==> exists p :: IsAt(states[k], p, id)
    ensures forall p, q :: id != -1 && IsAt(states[k], p, id) && IsAt(states[k], q, id) ==> p == q
    ensures forall p :: id != -1 && IsAt(states[k], p, id) ==> 0 <= id < n
  {
    hide Locks, Promises, Ring, Locals;
    var len, place := RunGood(n, schedule, states, k);
    if 0 <= id < n {
      assert IsAt(states[k], place[id], id);
    }
  }

  /** A return writes only into a slot that holds no stream, and a promise is never fulfilled twice. */
  lemma NoStreamIsOverwritten(n: nat, schedule: seq<nat>, states: seq<State>, k: nat, c: nat)
    requires n > 0 && IsRun(n, schedule, states) && k <= |schedule| && c in states[k].clients
    ensures states[k].clients[c].Swapped? ==>
              states[k].clients[c].oldBack < |states[k].streams|
                  && states[k].streams[states[k].clients[c].oldBack] == -1
    ensures states[k].clients[c].Delivering? ==> states[k].clients[c].to !in states[k].futures
    ensures states[k].clients[c].Unlocked? ==> c !in states[k].futures
  {
    var len, place := RunGood(n, schedule, states, k);
    match states[k].clients[c]
    case Swapped(v, b) =>
      var len1, place1 := SwappedStep(states[k], len, place, c, v, b);
    case Delivering(v, to) => FutureFree(states[k], c, to);
    case _ =>
  }

  // ----- waiting while a stream is idle -----

  /** Nobody waits while a stream is idle. */
  ghost predicate WaitersAreNeeded(s: State) {
    s.promises == [] || forall k :: 0 <= k < |s.streams| ==> s.streams[k] < 0
  }

  /**
    Under interleaving the rule can break, and in one way only: a client that saw no idle stream
    queues its promise (line 29) after a stream has come back meanwhile.
   */
  lemma BrokenOnlyByLatePromise(s: State, len: nat, place: map<int, Place>, c: nat)
    requires Good(s, len, place) && Enabled(s, c) && WaitersAreNeeded(s)
    ensures WaitersAreNeeded(Do(s, c)) <==>
              !(c in s.clients && s.clients[c].Queueing? && exists k :: 0 <= k < |s.streams| && s.streams[k] >= 0)
  {
    SharedEffect(s, len, c);
    hide Do, Locks, Promises, Ring, Locals, Places, Enabled;
  }

  /** What a step does to the queue of promises and to the slots. */
  lemma SharedEffect(s: State, len: nat, c: nat)
    requires WellSized(s) && len <= |s.streams| && Promises(s) && Locals(s, len) && Enabled(s, c)
    ensures var t := Do(s, c);
            if c in s.clients && s.clients[c].Queueing? then t.promises == s.promises + [c] && t.streams == s.streams
            else if c in s.clients && s.clients[c].Read? then t.promises == s.promises
                && t.streams == s.streams[s.front := -1]
            else if c in s.clients && s.clients[c].Swapped? then t.promises == []
            else t.streams == s.streams && (s.promises == [] ==> t.promises == [])
  {
    if c in s.clients && s.clients[c].Swapped? {
      QueueStaysEmpty(s, c);
    }
    hide Promises, Locals;
  }

  /** The states that some schedule reaches from the initial pool of `n` streams. */
  ghost predicate Reachable(n: nat, s: State) {
    exists schedule, states :: IsRun(n, schedule, states) && states[|schedule|] == s
  }

  lemma ReachStep(n: nat, s: State, c: nat, t: State)
    requires Reachable(n, s) && WellSized(s) && Enabled(s, c) && Do(s, c) == t
    ensures Reachable(n, t)
  {
    hide Do, Enabled;
    var schedule, states :| IsRun(n, schedule, states) && states[|schedule|] == s;
    var longer, more := schedule + [c], states + [t];
    forall i | 0 <= i < |longer|
      ensures WellSized(more[i]) && Enabled(more[i], longer[i]) && more[i + 1] == Do(more[i], longer[i])
    {
      if i < |schedule| {
        assert WellSized(states[i]) && Enabled(states[i], schedule[i]) && states[i + 1] == Do(states[i], schedule[i]);
      }
    }
    assert IsRun(n, longer, more);
  }

  /** Two clients over a single slot holding `x`. */
  function Duo(x: int, promises: seq<nat>, front: Option<nat>, queue: Option<nat>, futures: map<nat, int>, a: Pc,
               b: Pc): State {
    State([x], 0, 0, promises, front, queue, futures, map[0 := a, 1 := b])
  }

  lemma BothArrive()
    ensures Reachable(1, Duo(0, [], None, None, map[], Called, Called))
  {
    var start, one := Start(1), At(Start(1), 0, Called);
    assert IsRun(1, [], [start]);
    assert Reachable(1, start);
    ReachStep(1, start, 0, one);
    ReachStep(1, one, 1, At(one, 1, Called));
    assert start.streams == [0];
    assert At(one, 1, Called).clients == map[0 := Called, 1 := Called];
  }

  /** Client 0 takes the stream. */
  lemma FirstReadsHalfway()
    ensures Reachable(1, Duo(0, [], Some(0), None, map[], CanTake, Called))
  {
    hide Reachable;
    BothArrive();
    ReachStep(1, Duo(0, [], None, None, map[], Called, Called), 0,
        Duo(0, [], Some(0), None, map[], FrontLocked, Called));
    ReachStep(1, Duo(0, [], Some(0), None, map[], FrontLocked, Called), 0,
        Duo(0, [], Some(0), None, map[], CanTake, Called));
  }

  lemma FirstReads()
    ensures Reachable(1, Duo(-1, [], Some(0), None, map[], Emptied(0), Called))
  {
    hide Reachable;
    FirstReadsHalfway();
    ReachStep(1, Duo(0, [], Some(0), None, map[], CanTake, Called), 0,
        Duo(0, [], Some(0), None, map[], Read(0), Called));
    ReachStep(1, Duo(0, [], Some(0), None, map[], Read(0), Called), 0,
        Duo(-1, [], Some(0), None, map[], Emptied(0), Called));
  }

  lemma FirstTakesHalfway()
    ensures Reachable(1, Duo(-1, [], Some(0), None, map[], Advanced(0), Called))
  {
    hide Reachable;
    FirstReads();
    ReachStep(1, Duo(-1, [], Some(0), None, map[], Emptied(0), Called), 0,
        Duo(-1, [], Some(0), None, map[], Advanced(0), Called));
  }

  lemma FirstTakes()
    ensures Reachable(1, Duo(-1, [], None, None, map[0 := 0], Got, Called))
  {
    hide Reachable;
    FirstTakesHalfway();
    ReachStep(1, Duo(-1, [], Some(0), None, map[], Advanced(0), Called), 0,
        Duo(-1, [], None, None, map[], Unlocked(0), Called));
    ReachStep(1, Duo(-1, [], None, None, map[], Unlocked(0), Called), 0,
        Duo(-1, [], None, None, map[0 := 0], Got, Called));
  }

  /** Client 1 sees no idle stream and must wait. */
  lemma SecondSeesNone()
    ensures Reachable(1, Duo(-1, [], Some(1), None, map[0 := 0], Got, MustWait))
  {
    hide Reachable;
    FirstTakes();
    ReachStep(1, Duo(-1, [], None, None, map[0 := 0], Got, Called), 1,
        Duo(-1, [], Some(1), None, map[0 := 0], Got, FrontLocked));
    ReachStep(1, Duo(-1, [], Some(1), None, map[0 := 0], Got, FrontLocked), 1,
        Duo(-1, [], Some(1), None, map[0 := 0], Got, MustWait));
  }

  /** Client 0 returns the stream: no promise is queued, so it goes to its slot. */
  lemma FirstLoadsBackHalfway()
    ensures Reachable(1, Duo(-1, [], Some(1), Some(0), map[], QueueLocked(0), MustWait))
  {
    hide Reachable;
    SecondSeesNone();
    ReachStep(1, Duo(-1, [], Some(1), None, map[0 := 0], Got, MustWait), 0,
        Duo(-1, [], Some(1), None, map[], Returning(0), MustWait));
    ReachStep(1, Duo(-1, [], Some(1), None, map[], Returning(0), MustWait), 0,
        Duo(-1, [], Some(1), Some(0), map[], QueueLocked(0), MustWait));
  }

  lemma FirstLoadsBack()
    ensures Reachable(1, Duo(-1, [], Some(1), Some(0), map[], Loaded(0, 0), MustWait))
  {
    hide Reachable;
    FirstLoadsBackHalfway();
    ReachStep(1, Duo(-1, [], Some(1), Some(0), map[], QueueLocked(0), MustWait), 0,
        Duo(-1, [], Some(1), Some(0), map[], NoWaiter(0), MustWait));
    ReachStep(1, Duo(-1, [], Some(1), Some(0), map[], NoWaiter(0), MustWait), 0,
        Duo(-1, [], Some(1), Some(0), map[], Loaded(0, 0), MustWait));
  }

  lemma FirstReturnsHalfway()
    ensures Reachable(1, Duo(-1, [], Some(1), Some(0), map[], Swapped(0, 0), MustWait))
  {
    hide Reachable;
    FirstLoadsBack();
    ReachStep(1, Duo(-1, [], Some(1), Some(0), map[], Loaded(0, 0), MustWait), 0,
        Duo(-1, [], Some(1), Some(0), map[], Swapped(0, 0), MustWait));
  }

  lemma FirstReturns()
    ensures Reachable(1, Duo(0, [], Some(1), None, map[], Finished, MustWait))
  {
    hide Reachable;
    FirstReturnsHalfway();
    ReachStep(1, Duo(-1, [], Some(1), Some(0), map[], Swapped(0, 0), MustWait), 0,
        Duo(0, [], Some(1), Some(0), map[], Written, MustWait));
    ReachStep(1, Duo(0, [], Some(1), Some(0), map[], Written, MustWait), 0,
        Duo(0, [], Some(1), None, map[], Finished, MustWait));
  }

  /** Then client 1 queues its promise all the same: a reachable state with a waiter beside an idle stream. */
  lemma WaitingBesideAnIdleStream()
    ensures Reachable(1, Duo(0, [1], Some(1), Some(1), map[], Finished, Pushed))
    ensures !WaitersAreNeeded(Duo(0, [1], Some(1), Some(1), map[], Finished, Pushed))
  {
    hide Reachable;
    FirstReturns();
    ReachStep(1, Duo(0, [], Some(1), None, map[], Finished, MustWait), 1,
        Duo(0, [], Some(1), Some(1), map[], Finished, Queueing));
    ReachStep(1, Duo(0, [], Some(1), Some(1), map[], Finished, Queueing), 1,
        Duo(0, [1], Some(1), Some(1), map[], Finished, Pushed));
    assert Duo(0, [1], Some(1), Some(1), map[], Finished, Pushed).streams[0] == 0;
  }
}
