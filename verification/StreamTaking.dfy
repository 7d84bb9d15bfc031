/**
  What becomes of a client that has looked at the front of the ring (src/ovinferrequestsqueue.cpp:27-37), over every
  interleaving.
 */
module StreamTaking {
  import opened Wrappers
  import opened StreamPoolSteps

  /** The client is on its way to a future that holds stream `v`, or has it. */
  ghost predicate Taking(s: State, c: nat, v: int) {
    && WellSized(s) && v >= 0 && c in s.clients
    && match s.clients[c]
       case CanTake => s.streams[s.front] == v
       case Read(w) => w == v && s.streams[s.front] == v
       case Emptied(w) => w == v
       case Advanced(w) => w == v
       case Unlocked(w) => w == v
       case Got => c in s.futures && s.futures[c] == v
       case _ => false
  }

  lemma OwnStep(s: State, c: nat, v: int)
    requires Taking(s, c, v) && !s.clients[c].Got? && Enabled(s, c) && WellSized(Do(s, c))
    ensures Taking(Do(s, c), c, v)
  {
  }

  /** Another client leaves the front alone while `c` has its lock; a return goes to an empty slot. */
  lemma FrontUntouched(s: State, c: nat, d: nat)
    requires WellSized(s) && Enabled(s, d) && Locks(s) && d != c && c in s.clients && OwnsFront(s.clients[c])
    requires d in s.clients && s.clients[d].Swapped? && s.clients[d].oldBack < |s.streams| ==>
               s.streams[s.clients[d].oldBack] == -1
    requires s.streams[s.front] >= 0
    ensures var t := Do(s, d);
            t.front == s.front && t.front < |t.streams| && t.streams[t.front] == s.streams[s.front]
  {
    assert d in s.clients ==> !OwnsFront(s.clients[d]);
    hide Locks;
  }

  /** Nobody sets a future twice or takes another client's. */
  lemma FutureUntouched(s: State, c: nat, d: nat)
    requires WellSized(s) && Enabled(s, d) && d != c && c in s.futures
    requires d in s.clients && s.clients[d].Delivering? ==> s.clients[d].to !in s.futures
    ensures c in Do(s, d).futures && Do(s, d).futures[c] == s.futures[c]
  {
  }

  /** Another client's step keeps the client on its way. */
  lemma OtherStep(s: State, c: nat, d: nat, v: int)
    requires Taking(s, c, v) && d != c && Enabled(s, d) && WellSized(Do(s, d)) && Locks(s)
    requires d in s.clients && s.clients[d].Swapped? && s.clients[d].oldBack < |s.streams| ==>
               s.streams[s.clients[d].oldBack] == -1
    requires d in s.clients && s.clients[d].Delivering? ==> s.clients[d].to !in s.futures
    ensures Taking(Do(s, d), c, v)
  {
    var pc := s.clients[c];
    ClientStays(s, d, c);
    hide Do, Enabled, Locks;
    if pc.CanTake? || pc.Read? {
      FrontUntouched(s, c, d);
    } else if pc.Got? {
      FutureUntouched(s, c, d);
    }
  }

  lemma RunWellSized(n: nat, schedule: seq<nat>, states: seq<State>, k: nat)
    requires n > 0 && IsRun(n, schedule, states) && k <= |schedule|
    ensures WellSized(states[k]) && Locks(states[k])
  {
    var len, place := RunGood(n, schedule, states, k);
    hide Locks;
  }

  lemma Moves(n: nat, schedule: seq<nat>, states: seq<State>, k: nat)
    requires IsRun(n, schedule, states) && k < |schedule|
    ensures WellSized(states[k]) && Enabled(states[k], schedule[k]) && states[k + 1] == Do(states[k], schedule[k])
  {
    hide Enabled, Do;
  }

  /**
    A client that sees an idle stream at the front gets that stream, whatever the others do meanwhile; one that sees
    none goes on to queue a promise.  It looks at step `i`.
   */
  lemma {:induction false} SeenIsTaken(n: nat, schedule: seq<nat>, states: seq<State>, i: nat, j: nat, c: nat)
    requires n > 0 && IsRun(n, schedule, states) && i < j <= |schedule|
    requires schedule[i] == c && c in states[i].clients && states[i].clients[c] == FrontLocked
    requires forall k :: i < k < j ==> c in states[k].clients ==> states[k].clients[c] != Got
    ensures WellSized(states[i]) && c in states[j].clients
    ensures states[i].streams[states[i].front] >= 0 ==> Taking(states[j], c, states[i].streams[states[i].front])
    ensures states[i].streams[states[i].front] < 0 && j == i + 1 ==> states[j].clients[c] == MustWait
    decreases j
  {
    var k := j - 1;
    RunWellSized(n, schedule, states, k);
    RunWellSized(n, schedule, states, j);
    Moves(n, schedule, states, k);
    Moves(n, schedule, states, i);
    if i < k {
      SeenIsTaken(n, schedule, states, i, k, c);
      ClientStays(states[k], schedule[k], c);
      if states[i].streams[states[i].front] >= 0 {
        var v := states[i].streams[states[i].front];
        hide Taking, Enabled, Do, Locks;
        if schedule[k] == c {
          OwnStep(states[k], c, v);
        } else {
          if schedule[k] in states[k].clients {
            NoStreamIsOverwritten(n, schedule, states, k, schedule[k]);
          }
          OtherStep(states[k], c, schedule[k], v);
        }
      }
    }
  }

  lemma ClientStays(s: State, d: nat, c: nat)
    requires WellSized(s) && Enabled(s, d) && c in s.clients
    ensures c in Do(s, d).clients && (c != d ==> Do(s, d).clients[c] == s.clients[c])
  {
  }

  /** In particular the future it gets, when it gets it, holds the stream it saw. */
  lemma SeenIsGot(n: nat, schedule: seq<nat>, states: seq<State>, i: nat, j: nat, c: nat)
    requires n > 0 && IsRun(n, schedule, states) && i < j <= |schedule|
    requires schedule[i] == c && c in states[i].clients && states[i].clients[c] == FrontLocked
    requires states[i].front < |states[i].streams| && states[i].streams[states[i].front] >= 0
    requires forall k :: i < k < j ==> c in states[k].clients ==> states[k].clients[c] != Got
    requires c in states[j].clients && states[j].clients[c] == Got
    ensures c in states[j].futures && states[j].futures[c] == states[i].streams[states[i].front]
  {
    SeenIsTaken(n, schedule, states, i, j, c);
  }
}
