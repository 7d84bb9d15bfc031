/**
  Guards around the stream pool: `NodeStreamIdGuard` (src/nodestreamidguard.hpp:26-66) as
  `DLNodeSession` uses it (src/dlnodesession.cpp:200-213, 302-314).
 */
module StreamGuards {
  import opened Wrappers
  import opened StreamPool

  /**
    A guard is named by the ticket of its future.  `taken` says that `get` has consumed the future,
    after which waiting on it is an error; `given` counts the streams given back.
   */
  datatype Guard = Guard(taken: bool, streamId: Option<int>, disarmed: bool, destroyed: bool, given: nat)

  const FRESH := Guard(false, None, false, false, 0)

  datatype System = System(pool: Pool, guards: map<nat, Guard>)

  function Empty(n: nat): System {
    System(Initial(n), map[])
  }

  datatype Action = Create | TryGet(g: nat) | TryDisarm(g: nat) | Destroy(g: nat)

  predicate Alive(s: System, g: nat) {
    g in s.guards && !s.guards[g].destroyed
  }

  predicate FutureReady(s: System, g: nat) {
    g in s.pool.granted
  }

  /**
    The protocol of the callers: disarming is tried only while the stream id has not been obtained, and not
    again once it has succeeded.  Destroying blocks until the future is ready.
   */
  predicate Allows(s: System, a: Action) {
    match a
    case Create => true
    case TryGet(g) => Alive(s, g) && !s.guards[g].disarmed
    case TryDisarm(g) => Alive(s, g) && !s.guards[g].taken
    case Destroy(g) => Alive(s, g) && (s.guards[g].disarmed || s.guards[g].streamId.Some? || FutureReady(s, g))
  }

  function Perform(s: System, a: Action): System
    requires Allows(s, a)
  {
    match a
    case Create => System(Take(s.pool), s.guards[s.pool.tickets := FRESH])
    case TryGet(g) =>
      var u := s.guards[g];
      if u.streamId.None? && FutureReady(s, g)
      then s.(guards := s.guards[g := u.(taken := true, streamId := Some(s.pool.granted[g]))])
      else s
    case TryDisarm(g) =>
      var u := s.guards[g];
      if FutureReady(s, g)
      then System(Give(s.pool, s.pool.granted[g]),
                  s.guards[g := u.(taken := true, streamId := Some(s.pool.granted[g]), disarmed := true,
                      given := u.given + 1)])
      else s
    case Destroy(g) =>
      var u := s.guards[g];
      if u.disarmed then s.(guards := s.guards[g := u.(destroyed := true)])
      else
        var id := if u.streamId.Some? then u.streamId.value else s.pool.granted[g];
        System(Give(s.pool, id),
            s.guards[g := u.(taken := true, streamId := Some(id), destroyed := true, given := u.given + 1)])
  }

  /** The guard still has to give its stream back. */
  predicate Open(u: Guard) {
    !u.disarmed && !u.destroyed
  }

  ghost predicate GuardOk(s: System, g: nat)
    requires g in s.guards
  {
    var u := s.guards[g];
    && g < s.pool.tickets
    && (u.streamId.Some? ==> g in s.pool.granted && u.streamId.value == s.pool.granted[g])
    && (u.streamId.Some? <==> u.taken)
    && (u.disarmed ==> u.taken)
    && (Open(u) ==> u.given == 0)
    && (!Open(u) ==> u.given == 1 && g in s.pool.granted)
    && (Owns(s, g) ==> s.pool.granted[g] in s.pool.held)
  }

  /** The guard is open and has been granted a stream. */
  predicate Owns(s: System, g: nat) {
    g in s.guards && Open(s.guards[g]) && g in s.pool.granted
  }

  /** No two open guards have been granted the same stream. */
  ghost predicate Exclusive(s: System) {
    forall g, h :: g != h && Owns(s, g) && Owns(s, h) ==> s.pool.granted[g] != s.pool.granted[h]
  }

  /** Streams are out only on behalf of open guards. */
  ghost predicate Accounted(s: System) {
    forall id :: id in s.pool.held ==>
      exists g :: Owns(s, g) && s.pool.granted[g] == id
  }

  ghost predicate SystemOk(s: System, n: nat) {
    && Inv(s.pool, n)
    && (forall g: nat :: g < s.pool.tickets <==> g in s.guards)
    && (forall g :: g in s.guards ==> GuardOk(s, g))
    && Exclusive(s)
    && Accounted(s)
  }

  lemma EmptyOk(n: nat)
    ensures SystemOk(Empty(n), n)
  {
    InitialInv(n);
  }

  lemma CreateFacts(p: Pool, n: nat)
    requires Inv(p, n)
    ensures Inv(Take(p), n) && p.tickets !in p.granted
    ensures p.idle == [] ==> Take(p).granted == p.granted && Take(p).held == p.held
    ensures p.idle != [] ==> p.idle[0] !in p.held
  {
    TakeInv(p, n);
    if p.idle != [] {
      assert p.idle[0] in p.idle;
    }
  }

  lemma CreateOk(s: System, n: nat)
    requires SystemOk(s, n)
    ensures SystemOk(Perform(s, Create), n)
  {
    CreateFacts(s.pool, n);
    hide Inv;
    var t, newest := Perform(s, Create), s.pool.tickets;
    forall g | g in t.guards ensures GuardOk(t, g) {
      assert g != newest ==> GuardOk(s, g);
    }
    forall g | g in s.guards ensures GuardOk(s, g) && (Owns(t, g) <==> Owns(s, g)) {
    }
    CreateAccounted(s, n);
  }

  lemma CreateAccounted(s: System, n: nat)
    requires SystemOk(s, n)
    ensures Accounted(Perform(s, Create))
  {
    CreateFacts(s.pool, n);
    hide Inv;
    var t, newest := Perform(s, Create), s.pool.tickets;
    forall id | id in t.pool.held ensures exists g :: Owns(t, g) && t.pool.granted[g] == id {
      if id in s.pool.held {
        var g :| Owns(s, g) && s.pool.granted[g] == id;
        assert Owns(t, g) && t.pool.granted[g] == id;
      } else {
        assert Owns(t, newest) && t.pool.granted[newest] == id;
      }
    }
  }

  lemma TryGetOk(s: System, n: nat, g: nat)
    requires SystemOk(s, n) && Allows(s, TryGet(g))
    ensures SystemOk(Perform(s, TryGet(g)), n)
  {
    var t := Perform(s, TryGet(g));
    forall h | h in t.guards ensures GuardOk(t, h) {
      assert GuardOk(s, h);
    }
    KeptAccounted(s, t);
  }

  lemma KeptAccounted(s: System, t: System)
    requires Accounted(s) && t.pool == s.pool
    requires forall g :: g in s.guards ==> g in t.guards && Open(t.guards[g]) == Open(s.guards[g])
    ensures Accounted(t)
  {
    forall id | id in t.pool.held
      ensures exists g :: Owns(t, g) && t.pool.granted[g] == id
    {
      var g :| Owns(s, g) && s.pool.granted[g] == id;
      assert Owns(t, g);
    }
  }

  /** A guard that gives its stream back hands it to the oldest waiting guard or to the pool. */
  lemma GiveBackOk(s: System, n: nat, g: nat, u: Guard)
    requires SystemOk(s, n) && Owns(s, g)
    requires !Open(u) && u.given == 1 && u.taken && u.streamId == Some(s.pool.granted[g])
    ensures SystemOk(System(Give(s.pool, s.pool.granted[g]), s.guards[g := u]), n)
  {
    var id := s.pool.granted[g];
    var t := System(Give(s.pool, id), s.guards[g := u]);
    assert GuardOk(s, g);
    GiveInv(s.pool, n, id);
    if s.pool.waiting != [] {
      OldestIsOpen(s, n);
    }
    forall h | h in t.guards ensures GuardOk(t, h) {
      assert GuardOk(s, h);
      assert h != g && Owns(s, h) ==> s.pool.granted[h] != id;
    }
    GivenExclusive(s, n, g, u);
    GivenAccounted(s, n, g, u);
  }

  lemma OldestIsOpen(s: System, n: nat)
    requires SystemOk(s, n) && s.pool.waiting != []
    ensures var w := s.pool.waiting[0]; w in s.guards && Open(s.guards[w]) && w !in s.pool.granted
  {
    var w := s.pool.waiting[0];
    assert w == s.pool.tickets - |s.pool.waiting|;
    assert w in s.guards;
    assert GuardOk(s, w);
  }

  lemma GivenExclusive(s: System, n: nat, g: nat, u: Guard)
    requires SystemOk(s, n) && Owns(s, g) && !Open(u)
    ensures Exclusive(System(Give(s.pool, s.pool.granted[g]), s.guards[g := u]))
  {
    if s.pool.waiting != [] {
      OldestIsOpen(s, n);
    }
  }

  lemma GivenAccounted(s: System, n: nat, g: nat, u: Guard)
    requires SystemOk(s, n) && Owns(s, g) && !Open(u)
    ensures Accounted(System(Give(s.pool, s.pool.granted[g]), s.guards[g := u]))
  {
    var id := s.pool.granted[g];
    var t := System(Give(s.pool, id), s.guards[g := u]);
    if s.pool.waiting != [] {
      OldestIsOpen(s, n);
    }
    forall x | x in t.pool.held
      ensures exists h :: Owns(t, h) && t.pool.granted[h] == x
    {
      var h :| Owns(s, h) && s.pool.granted[h] == x;
      if x == id {
        var w := s.pool.waiting[0];
        assert Owns(t, w) && t.pool.granted[w] == id;
      } else {
        assert Owns(t, h) && t.pool.granted[h] == x;
      }
    }
  }

  lemma StepOk(s: System, n: nat, a: Action)
    requires SystemOk(s, n) && Allows(s, a)
    ensures SystemOk(Perform(s, a), n)
  {
    match a
    case Create => CreateOk(s, n);
    case TryGet(g) => TryGetOk(s, n, g);
    case TryDisarm(g) =>
      assert GuardOk(s, g);
      if FutureReady(s, g) {
        GiveBackOk(s, n, g, Perform(s, a).guards[g]);
      }
    case Destroy(g) =>
      assert GuardOk(s, g);
      if s.guards[g].disarmed {
        DestroyDisarmedOk(s, n, g);
      } else {
        GiveBackOk(s, n, g, Perform(s, a).guards[g]);
      }
  }

  lemma DestroyDisarmedOk(s: System, n: nat, g: nat)
    requires SystemOk(s, n) && Allows(s, Destroy(g)) && s.guards[g].disarmed
    ensures SystemOk(Perform(s, Destroy(g)), n)
  {
    var t := Perform(s, Destroy(g));
    forall h | h in t.guards ensures GuardOk(t, h) {
      assert GuardOk(s, h);
    }
    KeptAccounted(s, t);
  }

  ghost predicate IsRun(n: nat, actions: seq<Action>, states: seq<System>) {
    && |states| == |actions| + 1
    && states[0] == Empty(n)
    && forall i :: 0 <= i < |actions| ==>
         Allows(states[i], actions[i]) && states[i + 1] == Perform(states[i], actions[i])
  }

  lemma {:induction false} RunOk(n: nat, actions: seq<Action>, states: seq<System>, k: nat)
    requires IsRun(n, actions, states) && k <= |actions|
    ensures SystemOk(states[k], n)
  {
    if k == 0 {
      EmptyOk(n);
    } else {
      RunOk(n, actions, states, k - 1);
      assert Allows(states[k - 1], actions[k - 1]) && states[k - 1 + 1] == Perform(states[k - 1], actions[k - 1]);
      StepOk(states[k - 1], n, actions[k - 1]);
    }
  }

  /**
    Along every protocol-respecting run, with any number of guards, a guard gives its stream back exactly once:
    not before it is disarmed or destroyed, and then no more.  The pool keeps every stream in one place,
    and the streams that are out are exactly those granted to open guards, one each.
   */
  lemma GuardReturnsExactlyOnce(n: nat, actions: seq<Action>, states: seq<System>, k: nat, g: nat)
    requires IsRun(n, actions, states) && k <= |actions| && g in states[k].guards
    ensures states[k].guards[g].given == (if Open(states[k].guards[g]) then 0 else 1)
    ensures Inv(states[k].pool, n) && Exclusive(states[k]) && Accounted(states[k])
    ensures Owns(states[k], g) ==> states[k].pool.granted[g] in states[k].pool.held
  {
    RunOk(n, actions, states, k);
    assert GuardOk(states[k], g);
  }

  // ----- the guard object -----

  class NodeStreamIdGuard {
    const pool: OVInferRequestsQueue
    const ticket: nat
    var futureValid: bool
    var streamId: Option<int>
    var disarmed: bool
    ghost var destroyed: bool
    ghost var given: nat

    ghost function Abs(): Guard
      reads this
    {
      Guard(!futureValid, streamId, disarmed, destroyed, given)
    }

    /** This object is a guard of the system `s`, whose pool is this object's. */
    ghost predicate In(s: System, n: nat)
      reads this, pool, pool.streams
    {
      && pool.Valid() && SystemOk(s, n) && s.pool == pool.Abs()
      && ticket in s.guards && s.guards[ticket] == Abs()
    }

    constructor (pool: OVInferRequestsQueue, ghost s: System, ghost n: nat)
      requires pool.Valid() && SystemOk(s, n) && s.pool == pool.Abs()
      modifies pool, pool.streams
      ensures this.pool == pool && pool.streams == old(pool.streams)
      ensures In(Perform(s, Create), n)
    {
      hide SystemOk;
      StepOk(s, n, Create);
      this.pool := pool;
      futureValid, streamId, disarmed, destroyed, given := true, None, false, false, 0;
      var t := pool.GetIdleStream();
      ticket := t;
    }

    method TryGetId(ghost s: System, ghost n: nat) returns (id: Option<int>)
      requires In(s, n) && Allows(s, TryGet(ticket))
      modifies this
      ensures In(Perform(s, TryGet(ticket)), n) && id == streamId
      ensures id == if ticket in pool.fulfilled then Some(pool.fulfilled[ticket]) else None
    {
      TryGetMeans(s, n, ticket);
      hide SystemOk;
      StepOk(s, n, TryGet(ticket));
      if streamId.None? {
        if ticket in pool.fulfilled {
          streamId := Some(pool.fulfilled[ticket]);
          futureValid := false;
        }
      }
      return streamId;
    }

    method TryDisarm(ghost s: System, ghost n: nat) returns (done: bool)
      requires In(s, n) && Allows(s, Action.TryDisarm(ticket))
      modifies this, pool, pool.streams
      ensures pool.streams == old(pool.streams)
      ensures In(Perform(s, Action.TryDisarm(ticket)), n) && done == disarmed == (ticket in old(pool.fulfilled))
    {
      StepOk(s, n, Action.TryDisarm(ticket));
      Holding(s, n, ticket);
      hide SystemOk;
      if ticket in pool.fulfilled {
        var id := pool.fulfilled[ticket];
        streamId, futureValid := Some(id), false;
        pool.ReturnStream(id);
        disarmed := true;
        given := given + 1;
      }
      return disarmed;
    }

    /** The destructor, at the moment it no longer blocks. */
    method Destroy(ghost s: System, ghost n: nat)
      requires In(s, n) && Allows(s, Action.Destroy(ticket))
      modifies this, pool, pool.streams
      ensures pool.streams == old(pool.streams)
      ensures In(Perform(s, Action.Destroy(ticket)), n)
    {
      StepOk(s, n, Action.Destroy(ticket));
      if !disarmed {
        Holding(s, n, ticket);
      }
      hide SystemOk, Take, Inv, IsRing;
      if !disarmed {
        if streamId.None? {
          streamId := Some(pool.fulfilled[ticket]);
          futureValid := false;
        }
        pool.ReturnStream(streamId.value);
        given := given + 1;
      }
      destroyed := true;
    }
  }

  /** `tryGetId` returns the id that was granted as soon as there is one, and changes nothing else. */
  lemma TryGetMeans(s: System, n: nat, g: nat)
    requires SystemOk(s, n) && Allows(s, TryGet(g))
    ensures var t := Perform(s, TryGet(g));
            && t.pool == s.pool
            && t.guards[g].streamId == (if g in s.pool.granted then Some(s.pool.granted[g]) else None)
            && t.guards[g].given == s.guards[g].given
            && forall h :: h in s.guards && h != g ==> h in t.guards && t.guards[h] == s.guards[h]
  {
    assert GuardOk(s, g);
  }

  /** Disarming succeeds exactly when a stream has been granted, and then gives that stream back. */
  lemma TryDisarmMeans(s: System, n: nat, g: nat)
    requires SystemOk(s, n) && Allows(s, TryDisarm(g))
    ensures var t := Perform(s, TryDisarm(g));
            if g in s.pool.granted
            then t.guards[g].disarmed && t.guards[g].given == 1 && t.pool == Give(s.pool, s.pool.granted[g])
            else t == s
  {
    assert GuardOk(s, g);
  }

  /** Destroying a guard that has not been disarmed gives the granted stream back. */
  lemma DestroyMeans(s: System, n: nat, g: nat)
    requires SystemOk(s, n) && Allows(s, Destroy(g))
    ensures var t := Perform(s, Destroy(g));
            && t.guards[g].destroyed && t.guards[g].given == 1 && g in s.pool.granted
            && t.pool == if s.guards[g].disarmed then s.pool else Give(s.pool, s.pool.granted[g])
  {
    assert GuardOk(s, g);
  }

  /** What an open guard has been granted is out of the pool, and is the id the guard has. */
  lemma Holding(s: System, n: nat, g: nat)
    requires SystemOk(s, n) && g in s.guards && Open(s.guards[g])
    ensures g in s.pool.granted ==> s.pool.granted[g] in s.pool.held
    ensures s.guards[g].streamId.Some? ==> g in s.pool.granted && s.guards[g].streamId.value == s.pool.granted[g]
    ensures s.guards[g].streamId.Some? <==> s.guards[g].taken
  {
    assert GuardOk(s, g);
  }
}
