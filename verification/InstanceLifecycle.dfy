/**
  Loading, reloading and retiring one model instance while requests use it
  (src/modelinstance.cpp:468-716, src/modelinstanceunloadguard.cpp:21-28), as a sequentially
  consistent transition system over any number of threads.  A request increments the handle counter and
  then looks at the state; a reloader changes the state and then waits for the counter to be zero.
 */
module InstanceLifecycle {
  import opened Wrappers
  import opened NetworkLoading

  /** In the order of `ModelVersionState`. */
  datatype Phase = START | LOADING | AVAILABLE | UNLOADING | END

  /** `failed` is the error code UNKNOWN. */
  datatype Status = Status(phase: Phase, failed: bool)

  predicate FailedLoading(s: Status) {
    s.phase.LOADING? && s.failed
  }

  /** `UNLOADING <= state`, also written `AVAILABLE < state`. */
  predicate WillEndUnloaded(p: Phase) {
    p.UNLOADING? || p.END?
  }

  /** What requests use: the executable network, compiled from a configured network, and its stream pool. */
  datatype Components = Empty | Torn | Loaded(config: Config, network: Network)

  /** Why `reloadModel(config, parameter)` runs: on its own, or as an attempt of a dynamic reload. */
  datatype Stage = Plain | First | Full | Recover

  /**
    One call of `loadModelImpl`; `request` is what the enclosing dynamic reload was asked for, `kept` the
    network that an earlier load has left.
   */
  datatype Attempt = Attempt(stage: Stage, config: Config, param: Param, request: Param, kept: Option<Network>)

  /** The parts of a load, lines 479-512. */
  datatype Part = Reading | Batching | Shaping | Compiling

  /** Why `unloadModelComponents` runs. */
  datatype Reason = Permanent | CustomLoader(next: Attempt) | BeforeFull(request: Param)
                  | BeforeRecover(request: Param) | Cleanup

  datatype Operation = Load(config: Config) | Reload(config: Config) | Dynamic(request: Param) | Retire | CleanUp

  datatype Answer = OK | NotLoadedAnymore | NotLoadedYet | Failure | NoParameter

  datatype Pc =
    // waitForLoaded; `checks` attempts are left after this one
    | Arriving(checks: nat, first: bool)          // line 638 or 662 next
    | Testing(checks: nat, first: bool)           // line 639 or 663 next
    | Dropping(checks: nat, first: bool)          // line 643 or 667 next
    | Dropped(checks: nat)                        // line 668 next
    | Looping(checks: nat)                        // line 653 next
    | TimedOut                                    // line 675 next
    | Using(view: Components)                     // returned OK; `view` is what was there then
    | Leaving                                     // the guard is about to be destroyed
    // under loadingMutex
    | Wanting(op: Operation)
    | Locked(op: Operation)
    | Renewing(config: Config)                    // loadModel, line 533 next
    | Starting(attempt: Attempt)                  // line 539 next
    | Awaiting(attempt: Attempt)                  // line 540 next
    | Building(attempt: Attempt)                  // loadModelImpl entered
    | Rebuilding(attempt: Attempt, part: Part)    // this part of the load next
    | Completing(attempt: Attempt)                // line 518 next
    | Attempted(attempt: Attempt, ok: bool)       // loadModelImpl has returned
    | Unloading(why: Reason)                      // state change of retireModel or cleanupFailedLoad next
    | Draining(why: Reason)                       // line 705 next
    | Clearing(why: Reason)                       // lines 710-716 next
    | Cleared(why: Reason)
    | Guarding(attempt: Attempt)                  // line 606 next
    | Unlocking(result: Answer, view: Components, served: Option<Param>, last: Option<Attempt>) // mutex to release
    | Ended(result: Answer)

  datatype Thread = Thread(pc: Pc, guard: bool)

  /** `network` is read by the first load and kept until the components are unloaded. */
  datatype State = State(count: int, status: Status, components: Components, network: Option<Network>, config: Config,
                         mutex: Option<nat>, threads: map<nat, Thread>)

  /** What the scheduler and the outside world decide: `ok` a load's outcome, `resetLoader` the custom-loader flag. */
  datatype Choice = Request(checks: nat) | Submit(op: Operation) | Go(ok: bool, resetLoader: bool)
                  | StartReload(request: Param) | Finish

  /** A fresh instance: `addVersion` has registered it and is inside `loadModel`. */
  function Start(config: Config, loader: nat): State {
    State(0, Status(START, false), Empty, None, config, Some(loader),
          map[loader := Thread(Locked(Load(config)), false)])
  }

  predicate Enabled(s: State, t: nat, c: Choice) {
    match c
    case Request(_) => t !in s.threads
    case Submit(op) => t !in s.threads && !op.Load? && !op.Dynamic?
    case StartReload(_) => t in s.threads && s.threads[t].pc.Using?
    case Finish => t in s.threads && s.threads[t].pc.Using?
    case Go(_, _) =>
      && t in s.threads
      && match s.threads[t].pc
         case Wanting(_) => s.mutex.None?
         case Awaiting(_) => s.count == 0
         case Draining(_) => s.count == 0
         case Using(_) => false
         case Ended(_) => false
         case _ => true
  }

  function Move(s: State, t: nat, pc: Pc): State {
    s.(threads := s.threads[t := Thread(pc, t in s.threads && s.threads[t].guard)])
  }

  /** `ModelInstanceUnloadGuard` made and destroyed. */
  function MakeGuard(s: State, t: nat, pc: Pc): State {
    s.(count := s.count + 1, threads := s.threads[t := Thread(pc, true)])
  }

  function DropGuard(s: State, t: nat, pc: Pc): State {
    s.(count := s.count - 1, threads := s.threads[t := Thread(pc, false)])
  }

  /** The network that a load starts from. */
  function Base(a: Attempt): Network {
    if a.kept.Some? then a.kept.value else a.config.file
  }

  /** The network that a load ends with. */
  function Configured(a: Attempt): Network {
    Configure(a.config.settings, a.param, Base(a))
  }

  function AfterAttempt(a: Attempt, ok: bool): Pc {
    match a.stage
    case Plain => Unlocking(if ok then OK else Failure, Empty, None, Some(a))
    case First => if ok then Guarding(a) else Unloading(BeforeFull(a.request))
    case Full => if ok then Guarding(a) else Unloading(BeforeRecover(a.request))
    case Recover => Unlocking(Failure, Empty, Some(a.request), Some(a))
  }

  function AfterClearing(s: State, why: Reason): Pc {
    match why
    case Permanent => Unlocking(OK, Empty, None, None)
    case Cleanup => Unlocking(OK, Empty, None, None)
    case CustomLoader(a) => Building(a.(kept := s.network))
    case BeforeFull(r) => Starting(Attempt(Full, s.config, r, r, s.network))
    case BeforeRecover(r) => Starting(Attempt(Recover, s.config, NoParam, r, s.network))
  }

  function Begin(s: State, op: Operation): Pc {
    match op
    case Load(config) => Renewing(config)
    case Reload(config) => Starting(Attempt(Plain, config, NoParam, NoParam, s.network))
    case Dynamic(r) =>
      if r.NoParam? then Unlocking(NoParameter, Empty, Some(r), None)
      else Starting(Attempt(First, s.config, r, r, s.network))
    case Retire => Unloading(Permanent)
    case CleanUp => Unloading(Cleanup)
  }

  /** One part of a load; a failure leaves the network as the parts before have made it. */
  function Rebuild(s: State, t: nat, a: Attempt, part: Part, ok: bool): State {
    var net := if s.network.Some? then s.network.value else a.config.file;
    if !ok || (part.Shaping? && Rejected(a.config.settings, net))
    then Move(s, t, Attempted(a, false)).(status := Status(LOADING, true))
    else
      match part
      case Reading => Move(s, t, Rebuilding(a, Batching)).(network := Some(net))
      case Batching =>
        Move(s, t, Rebuilding(a, Shaping)).(network := Some(Batched(a.config.settings, a.param, net)))
      case Shaping =>
        Move(s, t, Rebuilding(a, Compiling)).(network := Some(Shaped(a.config.settings, a.param, net)))
      case Compiling => Move(s, t, Completing(a)).(components := Loaded(a.config, net))
  }

  function Unloaded(why: Reason): Status {
    if why.Permanent? then Status(UNLOADING, false) else Status(LOADING, why.Cleanup?)
  }

  /** Inside `loadModelImpl` or waiting to enter it. */
  predicate InAttempt(pc: Pc) {
    pc.Starting? || pc.Awaiting? || pc.Building? || pc.Rebuilding? || pc.Completing? || pc.Attempted?
  }

  /** Inside `retireModel`, `cleanupFailedLoad` and `unloadModelComponents`. */
  predicate InUnload(pc: Pc) {
    pc.Unloading? || pc.Draining? || pc.Clearing? || pc.Cleared?
  }

  function AttemptStep(s: State, t: nat, pc: Pc, ok: bool, reset: bool): State
    requires InAttempt(pc)
  {
    match pc
    case Starting(a) => Move(s, t, Awaiting(a)).(status := Status(LOADING, false))
    case Awaiting(a) => Move(s, t, if reset then Unloading(CustomLoader(a)) else Building(a))
    case Building(a) => Move(s, t, Rebuilding(a, Reading)).(components := Torn, config := a.config)
    case Rebuilding(a, part) => Rebuild(s, t, a, part, ok)
    case Completing(a) => Move(s, t, Attempted(a, true)).(status := Status(AVAILABLE, false))
    case Attempted(a, good) => Move(s, t, AfterAttempt(a, good))
  }

  function UnloadStep(s: State, t: nat, pc: Pc): State
    requires InUnload(pc)
  {
    match pc
    case Unloading(why) => Move(s, t, Draining(why)).(status := Unloaded(why))
    case Draining(why) => Move(s, t, Clearing(why))
    case Clearing(why) => Move(s, t, Cleared(why)).(components := Empty, network := None)
    case Cleared(why) =>
      Move(s, t, AfterClearing(s, why)).(status := if why.Permanent? then Status(END, false) else s.status)
  }

  /** Taking the mutex, beginning and ending an operation. */
  function OperationStep(s: State, t: nat, pc: Pc): State {
    match pc
    case Wanting(op) => Move(s, t, Locked(op)).(mutex := Some(t))
    case Locked(op) => Move(s, t, Begin(s, op)).(status := if op.Load? then Status(START, false) else s.status)
    case Renewing(config) =>
      Move(s, t, Building(Attempt(Plain, config, NoParam, NoParam, s.network))).(status := Status(LOADING, false))
    case Guarding(a) => MakeGuard(s, t, Unlocking(OK, s.components, Some(a.request), Some(a)))
    case Unlocking(r, view, _, _) =>
      Move(s, t, if t in s.threads && s.threads[t].guard then Using(view) else Ended(r)).(mutex := None)
    case _ => s
  }

  predicate InOperation(pc: Pc) {
    pc.Wanting? || pc.Locked? || pc.Renewing? || pc.Guarding? || pc.Unlocking?
  }

  /** `waitForLoaded` and the end of a request. */
  function RequestStep(s: State, t: nat, pc: Pc): State {
    match pc
    case Arriving(n, first) => MakeGuard(s, t, Testing(n, first))
    case Testing(n, first) =>
      Move(s, t, if s.status.phase.AVAILABLE? then Using(s.components) else Dropping(n, first))
    case Dropping(n, first) => DropGuard(s, t, if first then Looping(n) else Dropped(n))
    case Dropped(n) =>
      Move(s, t, if WillEndUnloaded(s.status.phase) then Ended(NotLoadedAnymore) else Looping(n))
    case Looping(n) => Move(s, t, if n == 0 then TimedOut else Arriving(n - 1, false))
    case TimedOut =>
      Move(s, t, Ended(if WillEndUnloaded(s.status.phase) then NotLoadedAnymore else NotLoadedYet))
    case Leaving => DropGuard(s, t, Ended(OK))
    case _ => s
  }

  /** The next step of thread `t`. */
  function Do(s: State, t: nat, c: Choice): State
    requires Enabled(s, t, c)
  {
    match c
    case Request(checks) => Move(s, t, Arriving(checks, true))
    case Submit(op) => Move(s, t, Wanting(op))
    case Finish => Move(s, t, Leaving)
    case StartReload(r) => DropGuard(s, t, Wanting(Dynamic(r)))
    case Go(ok, reset) =>
      var pc := s.threads[t].pc;
      if InAttempt(pc) then AttemptStep(s, t, pc, ok, reset)
      else if InUnload(pc) then UnloadStep(s, t, pc)
      else if InOperation(pc) then OperationStep(s, t, pc)
      else RequestStep(s, t, pc)
  }

  // ----- the invariant -----

  function Guards(s: State): set<nat> {
    set t | t in s.threads && s.threads[t].guard
  }

  predicate OwnsLock(pc: Pc) {
    || pc.Locked? || pc.Renewing? || pc.Starting? || pc.Awaiting? || pc.Building? || pc.Rebuilding? || pc.Completing?
    || pc.Attempted? || pc.Unloading? || pc.Draining? || pc.Clearing? || pc.Cleared? || pc.Guarding? || pc.Unlocking?
  }

  /** The code between making a guard and destroying it. */
  predicate Guarded(pc: Pc) {
    pc.Testing? || pc.Dropping? || pc.Using? || pc.Leaving? || (pc.Unlocking? && pc.view.Loaded?)
  }

  /** The thread relies on the components: it was told OK and has not begun to release. */
  predicate Relies(pc: Pc) {
    pc.Using? || pc.Leaving? || (pc.Unlocking? && pc.view.Loaded?)
  }

  /** The thread is tearing down or rebuilding the components, or is past its last wait before doing so. */
  predicate Mutating(pc: Pc) {
    || (pc.Locked? && pc.op.Load?) || pc.Renewing? || pc.Building? || pc.Rebuilding? || pc.Completing? || pc.Clearing?
       || pc.Cleared?
  }

  /** The thread has withdrawn the instance from new requests. */
  predicate Withdrawn(pc: Pc) {
    Mutating(pc) || pc.Awaiting? || pc.Draining?
  }

  ghost predicate Locks(s: State) {
    && (forall t :: t in s.threads ==> (OwnsLock(s.threads[t].pc) <==> s.mutex == Some(t)))
    && (s.mutex.Some? ==> s.mutex.value in s.threads)
  }

  ghost predicate Counted(s: State) {
    && s.count == |Guards(s)|
    && (forall t :: t in s.threads ==> (s.threads[t].guard <==> Guarded(s.threads[t].pc)))
  }

  ghost predicate Protected(s: State) {
    && (forall t :: t in s.threads && Withdrawn(s.threads[t].pc) ==> !s.status.phase.AVAILABLE?)
    && (forall t, u :: t in s.threads && u in s.threads && Mutating(s.threads[t].pc) ==> !Relies(s.threads[u].pc))
    && (s.status.phase.AVAILABLE? ==> s.components.Loaded?)
  }

  /** What each thread knows about the components and the state. */
  ghost predicate Knows(s: State, pc: Pc) {
    match pc
    case Using(view) => view == s.components && view.Loaded?
    case Wanting(op) => !op.Load?
    case Starting(a) => AttemptShape(a) && s.network == a.kept
    case Awaiting(a) => AttemptShape(a) && s.network == a.kept
    case Building(a) => AttemptShape(a) && s.network == a.kept
    case Rebuilding(a, part) => AttemptShape(a) && s.config == a.config && s.network == NetworkBefore(a, part)
    case Completing(a) => AttemptShape(a) && s.config == a.config && s.components == Loaded(a.config, Configured(a))
    case Attempted(a, ok) => AttemptShape(a) && AttemptDone(s, a, ok)
    case Unloading(CustomLoader(a)) => AttemptShape(a)
    case Draining(CustomLoader(a)) => AttemptShape(a)
    case Clearing(CustomLoader(a)) => AttemptShape(a)
    case Cleared(why) => s.network.None? && (why.CustomLoader? ==> AttemptShape(why.next))
    case Guarding(a) => AttemptShape(a) && (a.stage.First? || a.stage.Full?) && AttemptDone(s, a, true)
    case Unlocking(res, view, served, last) => Answered(s, res, view, served, last)
    case _ => true
  }

  /** The network between the parts of a load. */
  function NetworkBefore(a: Attempt, part: Part): Option<Network> {
    match part
    case Reading => a.kept
    case Batching => Some(Base(a))
    case Shaping => Some(Batched(a.config.settings, a.param, Base(a)))
    case Compiling => Some(Configured(a))
  }

  /**
    The parameter of an attempt is the request, except in plain reloads and in the recovery.  A full reload and
    the recovery start without a network.
   */
  predicate AttemptShape(a: Attempt) {
    && a.param == (if a.stage.First? || a.stage.Full? then a.request else NoParam)
    && (a.stage.Full? || a.stage.Recover? ==> a.kept.None?)
  }

  ghost predicate AttemptDone(s: State, a: Attempt, ok: bool) {
    && s.config == a.config
    && (ok ==> s.status.phase.AVAILABLE? && s.components == Loaded(a.config, Configured(a)))
    && (!ok ==> FailedLoading(s.status))
  }

  /** What is true when the mutex is about to be released. */
  ghost predicate Answered(s: State, res: Answer, view: Components, served: Option<Param>, last: Option<Attempt>) {
    && (view.Loaded? ==> view == s.components && res.OK? && s.status.phase.AVAILABLE?)
    && (last.Some? ==> AttemptShape(last.value) && (res.OK? ==> AttemptDone(s, last.value, true)))
    && (res.Failure? ==>
          FailedLoading(s.status) || (s.status.phase.AVAILABLE? && s.components == Loaded(s.config, Fresh(s.config))))
    && (served.Some? && res.OK? ==>
          view.Loaded? && last.Some? && !last.value.stage.Plain? && last.value.param == served.value)
  }

  /** The parameters of the dynamic reload that a thread is carrying out. */
  function Serves(pc: Pc): Option<Param> {
    match pc
    case Wanting(Dynamic(r)) => Some(r)
    case Locked(Dynamic(r)) => Some(r)
    case Starting(a) => AttemptServes(a)
    case Awaiting(a) => AttemptServes(a)
    case Building(a) => AttemptServes(a)
    case Rebuilding(a, _) => AttemptServes(a)
    case Completing(a) => AttemptServes(a)
    case Attempted(a, _) => AttemptServes(a)
    case Unloading(why) => ReasonServes(why)
    case Draining(why) => ReasonServes(why)
    case Clearing(why) => ReasonServes(why)
    case Cleared(why) => ReasonServes(why)
    case Guarding(a) => AttemptServes(a)
    case Unlocking(_, _, r, _) => r
    case _ => None
  }

  function AttemptServes(a: Attempt): Option<Param> {
    if a.stage.Plain? then None else Some(a.request)
  }

  function ReasonServes(why: Reason): Option<Param> {
    match why
    case CustomLoader(a) => AttemptServes(a)
    case BeforeFull(r) => Some(r)
    case BeforeRecover(r) => Some(r)
    case _ => None
  }

  /** Only a reload without parameters is turned away for having none. */
  predicate Purposeful(pc: Pc) {
    match pc
    case Wanting(_) => true
    case Locked(_) => true
    case Unlocking(res, _, r, _) => r.Some? ==> (res.NoParameter? <==> r.value.NoParam?)
    case _ => Serves(pc).Some? ==> !Serves(pc).value.NoParam?
  }

  ghost predicate Good(s: State) {
    && Locks(s)
    && Counted(s)
    && Protected(s)
    && forall t :: t in s.threads ==> Knows(s, s.threads[t].pc) && Purposeful(s.threads[t].pc)
  }

  // ----- one step -----

  function PcOf(s: State, t: nat): Pc {
    if t in s.threads then s.threads[t].pc else Ended(OK)
  }

  function HasGuard(s: State, t: nat): bool {
    t in s.threads && s.threads[t].guard
  }

  /** Only thread `t` moved; the lock and the counter moved with it. */
  predicate OneThread(s: State, t: nat, n: State) {
    && t in n.threads && n.threads == s.threads[t := n.threads[t]]
    && n.count == s.count + (if n.threads[t].guard then 1 else 0) - (if HasGuard(s, t) then 1 else 0)
    && (n.threads[t].guard <==> Guarded(n.threads[t].pc))
    && n.mutex == (if OwnsLock(n.threads[t].pc) then Some(t) else if OwnsLock(PcOf(s, t)) then None else s.mutex)
    && (OwnsLock(n.threads[t].pc) && !OwnsLock(PcOf(s, t)) ==> s.mutex.None?)
  }

  ghost predicate Ready(s: State, t: nat) {
    && (HasGuard(s, t) <==> Guarded(PcOf(s, t)))
    && (t in s.threads ==> (OwnsLock(s.threads[t].pc) <==> s.mutex == Some(t)))
    && (t in s.threads ==> Knows(s, s.threads[t].pc) && Purposeful(s.threads[t].pc))
    && (t in s.threads && Withdrawn(s.threads[t].pc) ==> !s.status.phase.AVAILABLE?)
    && (s.status.phase.AVAILABLE? ==> s.components.Loaded?)
  }

  /** A step of `t` to `n`: who moved, what it may change, and what it knows then. */
  ghost predicate Sound(s: State, t: nat, n: State) {
    OneThread(s, t, n) && Discipline(s, t, n) && Knows(n, n.threads[t].pc) && Purposeful(n.threads[t].pc)
  }

  ghost predicate Disciplined(s: State, t: nat, n: State) {
    t in n.threads && Discipline(s, t, n)
  }

  ghost predicate Informed(t: nat, n: State) {
    t in n.threads && Knows(n, n.threads[t].pc) && Purposeful(n.threads[t].pc)
  }

  lemma ChoiceMoves(s: State, t: nat, c: Choice)
    requires Enabled(s, t, c) && Ready(s, t)
    requires !c.Go?
    ensures OneThread(s, t, Do(s, t, c))
  {
    hide Knows, Purposeful, Serves, Rejected, Configure, Batched, Shaped, Answered, Withdrawn, Mutating, Relies;
  }

  lemma ChoiceDiscipline(s: State, t: nat, c: Choice)
    requires Enabled(s, t, c) && Ready(s, t)
    requires !c.Go?
    ensures Disciplined(s, t, Do(s, t, c))
  {
    hide Purposeful, Serves, Rejected, Configure, Batched, Shaped, Answered, Guarded;
  }

  lemma ChoiceInformed(s: State, t: nat, c: Choice)
    requires Enabled(s, t, c) && Ready(s, t)
    requires !c.Go?
    ensures Informed(t, Do(s, t, c))
  {
    hide OwnsLock, Relies, Mutating, Withdrawn, Rejected, Batched, Shaped;
  }

  lemma RequestMoves(s: State, t: nat, c: Choice)
    requires Enabled(s, t, c) && Ready(s, t)
    requires c.Go? && !InAttempt(PcOf(s, t)) && !InUnload(PcOf(s, t)) && !InOperation(PcOf(s, t))
    ensures OneThread(s, t, Do(s, t, c))
  {
    hide Knows, Purposeful, Serves, Rejected, Configure, Batched, Shaped, Answered, Withdrawn, Mutating, Relies;
    assert Do(s, t, c) == RequestStep(s, t, s.threads[t].pc);
  }

  lemma RequestDiscipline(s: State, t: nat, c: Choice)
    requires Enabled(s, t, c) && Ready(s, t)
    requires c.Go? && !InAttempt(PcOf(s, t)) && !InUnload(PcOf(s, t)) && !InOperation(PcOf(s, t))
    ensures Disciplined(s, t, Do(s, t, c))
  {
    hide Purposeful, Serves, Rejected, Configure, Batched, Shaped, Answered, Guarded;
    assert Do(s, t, c) == RequestStep(s, t, s.threads[t].pc);
  }

  lemma RequestInformed(s: State, t: nat, c: Choice)
    requires Enabled(s, t, c) && Ready(s, t)
    requires c.Go? && !InAttempt(PcOf(s, t)) && !InUnload(PcOf(s, t)) && !InOperation(PcOf(s, t))
    ensures Informed(t, Do(s, t, c))
  {
    hide OwnsLock, Relies, Mutating, Withdrawn, Rejected, Batched, Shaped;
    assert Do(s, t, c) == RequestStep(s, t, s.threads[t].pc);
  }

  lemma OperationMoves(s: State, t: nat, c: Choice)
    requires Enabled(s, t, c) && Ready(s, t)
    requires c.Go? && InOperation(PcOf(s, t))
    ensures OneThread(s, t, Do(s, t, c))
  {
    hide Purposeful, Serves, Rejected, Configure, Batched, Shaped, Withdrawn, Mutating, Relies;
    assert Do(s, t, c) == OperationStep(s, t, s.threads[t].pc);
  }

  lemma OperationDiscipline(s: State, t: nat, c: Choice)
    requires Enabled(s, t, c) && Ready(s, t)
    requires c.Go? && InOperation(PcOf(s, t))
    ensures Disciplined(s, t, Do(s, t, c))
  {
    hide Purposeful, Serves, Rejected, Configure, Batched, Shaped;
    assert Do(s, t, c) == OperationStep(s, t, s.threads[t].pc);
  }

  lemma OperationInformed(s: State, t: nat, c: Choice)
    requires Enabled(s, t, c) && Ready(s, t)
    requires c.Go? && InOperation(PcOf(s, t))
    ensures Informed(t, Do(s, t, c))
  {
    hide OwnsLock, Relies, Mutating, Withdrawn, Rejected, Batched, Shaped;
    assert Do(s, t, c) == OperationStep(s, t, s.threads[t].pc);
  }

  lemma UnloadMoves(s: State, t: nat, c: Choice)
    requires Enabled(s, t, c) && Ready(s, t)
    requires c.Go? && InUnload(PcOf(s, t))
    ensures OneThread(s, t, Do(s, t, c))
  {
    hide Knows, Purposeful, Serves, Rejected, Configure, Batched, Shaped, Answered, Withdrawn, Mutating, Relies;
    assert Do(s, t, c) == UnloadStep(s, t, s.threads[t].pc);
  }

  lemma UnloadDiscipline(s: State, t: nat, c: Choice)
    requires Enabled(s, t, c) && Ready(s, t)
    requires c.Go? && InUnload(PcOf(s, t))
    ensures Disciplined(s, t, Do(s, t, c))
  {
    hide Purposeful, Serves, Rejected, Configure, Batched, Shaped, Answered, Guarded;
    assert Do(s, t, c) == UnloadStep(s, t, s.threads[t].pc);
  }

  lemma UnloadInformed(s: State, t: nat, c: Choice)
    requires Enabled(s, t, c) && Ready(s, t)
    requires c.Go? && InUnload(PcOf(s, t))
    ensures Informed(t, Do(s, t, c))
  {
    hide OwnsLock, Relies, Mutating, Withdrawn, Rejected, Batched, Shaped;
    assert Do(s, t, c) == UnloadStep(s, t, s.threads[t].pc);
  }

  lemma AttemptMoves(s: State, t: nat, c: Choice)
    requires Enabled(s, t, c) && Ready(s, t)
    requires c.Go? && InAttempt(PcOf(s, t))
    ensures OneThread(s, t, Do(s, t, c))
  {
    hide Knows, Purposeful, Serves, Rejected, Configure, Batched, Shaped, Answered, Withdrawn, Mutating, Relies;
    assert Do(s, t, c) == AttemptStep(s, t, s.threads[t].pc, c.ok, c.resetLoader);
  }

  lemma AttemptDiscipline(s: State, t: nat, c: Choice)
    requires Enabled(s, t, c) && Ready(s, t)
    requires c.Go? && InAttempt(PcOf(s, t))
    ensures Disciplined(s, t, Do(s, t, c))
  {
    hide Purposeful, Serves, Rejected, Configure, Batched, Shaped, Answered, Guarded;
    assert Do(s, t, c) == AttemptStep(s, t, s.threads[t].pc, c.ok, c.resetLoader);
  }

  lemma AttemptKnows(s: State, t: nat, c: Choice)
    requires Enabled(s, t, c) && Ready(s, t)
    requires c.Go? && InAttempt(PcOf(s, t))
    ensures t in Do(s, t, c).threads && Knows(Do(s, t, c), Do(s, t, c).threads[t].pc)
  {
    hide OwnsLock, Relies, Mutating, Withdrawn, Guarded, Rejected, Batched, Shaped, Purposeful, Serves;
    assert Do(s, t, c) == AttemptStep(s, t, s.threads[t].pc, c.ok, c.resetLoader);
  }

  lemma AttemptInformed(s: State, t: nat, c: Choice)
    requires Enabled(s, t, c) && Ready(s, t)
    requires c.Go? && InAttempt(PcOf(s, t))
    ensures Informed(t, Do(s, t, c))
  {
    AttemptKnows(s, t, c);
    hide Knows, OwnsLock, Relies, Mutating, Withdrawn, Guarded, Rejected, Batched, Shaped;
    assert Do(s, t, c) == AttemptStep(s, t, s.threads[t].pc, c.ok, c.resetLoader);
  }

  lemma OneThreadLocks(s: State, t: nat, n: State)
    requires Locks(s) && OneThread(s, t, n)
    ensures Locks(n)
  {
  }

  lemma OneThreadCounted(s: State, t: nat, n: State)
    requires Counted(s) && OneThread(s, t, n)
    ensures Counted(n)
  {
    hide Guarded, OwnsLock;
    if n.threads[t].guard {
      assert Guards(n) == Guards(s) + {t};
    } else {
      assert Guards(n) == Guards(s) - {t};
    }
  }

  /** Who changes the shared state, and when. */
  ghost predicate Discipline(s: State, t: nat, n: State)
    requires t in n.threads
  {
    var was, pc := PcOf(s, t), n.threads[t].pc;
    && (!OwnsLock(was) ==>
          n.status == s.status && n.components == s.components && n.network == s.network && n.config == s.config)
    && (n.components != s.components ==> Mutating(was))
    && (n.status.phase.AVAILABLE? && !s.status.phase.AVAILABLE? ==> OwnsLock(was))
    && (n.status.phase.AVAILABLE? ==> n.components.Loaded?)
    && (Withdrawn(pc) ==> !n.status.phase.AVAILABLE?)
    && (Mutating(pc) && !Mutating(was) ==> s.count == 0 && OwnsLock(was))
    && (Relies(pc) && !Relies(was) ==> s.status.phase.AVAILABLE? && (was.Testing? || OwnsLock(was)))
  }

  lemma OneThreadProtected(s: State, t: nat, n: State)
    requires Locks(s) && Counted(s) && Protected(s) && OneThread(s, t, n) && Discipline(s, t, n)
    ensures Protected(n)
  {
    hide OwnsLock, Guarded, Relies, Mutating, Withdrawn;
    PcFacts();
    forall u | u in n.threads && Withdrawn(n.threads[u].pc) ensures !n.status.phase.AVAILABLE? {
      if u != t {
        assert OwnsLock(s.threads[u].pc);
      }
    }
    forall u, w | u in n.threads && w in n.threads && Mutating(n.threads[u].pc) ensures !Relies(n.threads[w].pc) {
      MutatingAlone(s, t, n, u, w);
    }
  }

  /** How the classes of program points relate. */
  lemma PcFacts()
    ensures forall pc :: Mutating(pc) ==> Withdrawn(pc) && !Relies(pc)
    ensures forall pc :: Withdrawn(pc) ==> OwnsLock(pc)
    ensures forall pc :: Relies(pc) ==> Guarded(pc)
    ensures !OwnsLock(Ended(OK)) && !Relies(Ended(OK)) && !Mutating(Ended(OK))
  {
  }

  lemma MutatingAlone(s: State, t: nat, n: State, u: nat, w: nat)
    requires Locks(s) && Counted(s) && Protected(s) && OneThread(s, t, n) && Discipline(s, t, n)
    requires u in n.threads && w in n.threads && Mutating(n.threads[u].pc)
    ensures !Relies(n.threads[w].pc)
  {
    hide OwnsLock, Guarded, Relies, Mutating, Withdrawn;
    PcFacts();
    if u == t && w != t {
      if !Mutating(PcOf(s, t)) {
        assert Guards(s) == {};
        assert w !in Guards(s);
      }
    } else if u != t && w == t {
      assert Withdrawn(s.threads[u].pc) && !s.status.phase.AVAILABLE?;
      assert t in s.threads ==> !Relies(s.threads[t].pc);
    }
  }

  lemma OthersKnow(s: State, t: nat, n: State, u: nat)
    requires Good(s) && OneThread(s, t, n) && Discipline(s, t, n) && u in n.threads && u != t
    ensures Knows(n, n.threads[u].pc)
  {
    assert Knows(s, s.threads[u].pc);
    if OwnsLock(PcOf(s, t)) {
      assert !OwnsLock(s.threads[u].pc);
      assert s.threads[u].pc.Using? ==> n.components == s.components;
    }
  }

  lemma DoSound(s: State, t: nat, c: Choice)
    requires Enabled(s, t, c) && Ready(s, t)
    ensures Sound(s, t, Do(s, t, c))
  {
    hide Do, Ready, Enabled, OneThread, Discipline, Knows, Purposeful;
    if !c.Go? {
      ChoiceMoves(s, t, c);
      ChoiceDiscipline(s, t, c);
      ChoiceInformed(s, t, c);
    } else if InAttempt(PcOf(s, t)) {
      AttemptMoves(s, t, c);
      AttemptDiscipline(s, t, c);
      AttemptInformed(s, t, c);
    } else if InUnload(PcOf(s, t)) {
      UnloadMoves(s, t, c);
      UnloadDiscipline(s, t, c);
      UnloadInformed(s, t, c);
    } else if InOperation(PcOf(s, t)) {
      OperationMoves(s, t, c);
      OperationDiscipline(s, t, c);
      OperationInformed(s, t, c);
    } else {
      RequestMoves(s, t, c);
      RequestDiscipline(s, t, c);
      RequestInformed(s, t, c);
    }
  }

  lemma StepGood(s: State, t: nat, c: Choice)
    requires Good(s) && Enabled(s, t, c)
    ensures Good(Do(s, t, c))
  {
    var n := Do(s, t, c);
    assert Ready(s, t);
    DoSound(s, t, c);
    hide Do, Knows, Enabled, OwnsLock, Purposeful;
    OneThreadLocks(s, t, n);
    OneThreadCounted(s, t, n);
    OneThreadProtected(s, t, n);
    forall u | u in n.threads ensures Knows(n, n.threads[u].pc) && Purposeful(n.threads[u].pc) {
      if u != t {
        OthersKnow(s, t, n, u);
      }
    }
  }

  ghost predicate IsRun(config: Config, loader: nat, moves: seq<(nat, Choice)>, states: seq<State>) {
    && |states| == |moves| + 1
    && states[0] == Start(config, loader)
    && forall i :: 0 <= i < |moves| ==>
         Enabled(states[i], moves[i].0, moves[i].1) && states[i + 1] == Do(states[i], moves[i].0, moves[i].1)
  }

  /** One move of a run. */
  lemma RunStep(config: Config, loader: nat, moves: seq<(nat, Choice)>, states: seq<State>, k: nat)
    requires IsRun(config, loader, moves, states) && k < |moves|
    ensures Enabled(states[k], moves[k].0, moves[k].1) && states[k + 1] == Do(states[k], moves[k].0, moves[k].1)
  {
    hide Enabled, Do;
  }

  lemma StartGood(config: Config, loader: nat)
    ensures Good(Start(config, loader))
  {
    assert Guards(Start(config, loader)) == {};
  }

  lemma {:induction false} RunGood(config: Config, loader: nat, moves: seq<(nat, Choice)>, states: seq<State>, k: nat)
    requires IsRun(config, loader, moves, states) && k <= |moves|
    ensures Good(states[k])
  {
    if k == 0 {
      StartGood(config, loader);
    } else {
      RunGood(config, loader, moves, states, k - 1);
      var (t, c) := moves[k - 1];
      assert Enabled(states[k - 1], moves[k - 1].0, moves[k - 1].1)
             && states[k - 1 + 1] == Do(states[k - 1], moves[k - 1].0, moves[k - 1].1);
      StepGood(states[k - 1], t, c);
    }
  }

  // ----- the theorems -----

  /** In every reachable state the handle counter is the number of live guards; it never goes below zero. */
  lemma CounterCountsGuards(config: Config, loader: nat, moves: seq<(nat, Choice)>, states: seq<State>, k: nat)
    requires IsRun(config, loader, moves, states) && k <= |moves|
    ensures states[k].count == |Guards(states[k])| >= 0
  {
    RunGood(config, loader, moves, states, k);
  }

  /** A request has a live guard exactly when it has been answered OK; any other answer leaves none. */
  lemma OkMeansGuard(config: Config, loader: nat, moves: seq<(nat, Choice)>, states: seq<State>, k: nat, t: nat)
    requires IsRun(config, loader, moves, states) && k <= |moves| && t in states[k].threads
    ensures states[k].threads[t].pc.Using? ==> states[k].threads[t].guard
    ensures states[k].threads[t].pc.Ended? ==> !states[k].threads[t].guard
    ensures states[k].threads[t].pc.Unlocking? ==>
              (states[k].threads[t].guard <==> states[k].threads[t].pc.view.Loaded?)
  {
    RunGood(config, loader, moves, states, k);
  }

  /**
    Unload safety over all interleavings.  As long as a request that was answered OK has not released its
    guard, no thread tears down or rebuilds the components, and they are still those it was given.
   */
  lemma UsedComponentsAreStable(config: Config, loader: nat, moves: seq<(nat, Choice)>, states: seq<State>, k: nat,
                                t: nat, u: nat)
    requires IsRun(config, loader, moves, states) && k <= |moves|
    requires t in states[k].threads && states[k].threads[t].pc.Using?
    ensures states[k].components == states[k].threads[t].pc.view && states[k].components.Loaded?
    ensures u in states[k].threads ==> !Mutating(states[k].threads[u].pc)
    ensures states[k].count > 0
  {
    RunGood(config, loader, moves, states, k);
    assert Knows(states[k], states[k].threads[t].pc);
    assert Relies(states[k].threads[t].pc);
    assert t in Guards(states[k]);
  }

  /** And no step that anybody can take in between changes them. */
  lemma NoStepChangesUsedComponents(config: Config, loader: nat, moves: seq<(nat, Choice)>, states: seq<State>, k: nat,
                                    t: nat)
    requires IsRun(config, loader, moves, states) && k < |moves|
    requires t in states[k].threads && states[k].threads[t].pc.Using?
    ensures states[k + 1].components == states[k].components && states[k + 1].config == states[k].config
  {
    RunGood(config, loader, moves, states, k);
    var (u, c) := moves[k];
    assert Enabled(states[k], moves[k].0, moves[k].1) && states[k + 1] == Do(states[k], moves[k].0, moves[k].1);
    assert Relies(states[k].threads[t].pc);
    if u in states[k].threads {
      assert !Mutating(states[k].threads[u].pc);
    }
  }

  lemma ServesKept(s: State, t: nat, u: nat, c: Choice)
    requires t in s.threads && Serves(s.threads[t].pc).Some? && !s.threads[t].pc.Unlocking? && Enabled(s, u, c)
    ensures t in Do(s, u, c).threads && Serves(Do(s, u, c).threads[t].pc) == Serves(s.threads[t].pc)
  {
    if t != u {
      OtherUnmoved(s, t, u, c);
    }
  }

  lemma OtherUnmoved(s: State, t: nat, u: nat, c: Choice)
    requires t in s.threads && t != u && Enabled(s, u, c)
    ensures t in Do(s, u, c).threads && Do(s, u, c).threads[t] == s.threads[t]
  {
  }

  lemma {:induction false} ServesUntilUnlocking(config: Config, loader: nat, moves: seq<(nat, Choice)>,
                                                states: seq<State>, i: nat, j: nat, t: nat, r: Param)
    requires IsRun(config, loader, moves, states) && i <= j <= |moves|
    requires t in states[i].threads && states[i].threads[t].pc == Wanting(Dynamic(r))
    requires forall k :: i <= k < j ==> t in states[k].threads ==> !states[k].threads[t].pc.Unlocking?
    ensures t in states[j].threads && Serves(states[j].threads[t].pc) == Some(r)
    decreases j
  {
    if i < j {
      ServesUntilUnlocking(config, loader, moves, states, i, j - 1, t, r);
      assert Enabled(states[j - 1], moves[j - 1].0, moves[j - 1].1)
             && states[j - 1 + 1] == Do(states[j - 1], moves[j - 1].0, moves[j - 1].1);
      ServesKept(states[j - 1], t, moves[j - 1].0, moves[j - 1].1);
    }
  }

  /**
    The dynamic reload contract.  A thread asks for a reload with `r` at step `i` and is about to release the
    mutex at step `j`.  With OK it has a guard on a model loaded with `r`; with a failure it has none, and the
    model is either available on its unparameterised configuration or failed loading.
   */
  lemma DynamicReloadContract(config: Config, loader: nat, moves: seq<(nat, Choice)>, states: seq<State>, i: nat,
                              j: nat, t: nat, r: Param)
    requires IsRun(config, loader, moves, states) && i <= j <= |moves|
    requires t in states[i].threads && states[i].threads[t].pc == Wanting(Dynamic(r))
    requires forall k :: i <= k < j ==> t in states[k].threads ==> !states[k].threads[t].pc.Unlocking?
    requires t in states[j].threads && states[j].threads[t].pc.Unlocking?
    ensures var s, thread := states[j], states[j].threads[t];
            && (thread.pc.result.NoParameter? <==> r.NoParam?)
            && (thread.guard <==> thread.pc.result.OK?)
            && (thread.pc.result.OK? ==>
                  && s.status.phase.AVAILABLE? && s.components == thread.pc.view
                  && s.components.Loaded? && s.components.config == s.config
                  && Honoured(s.config.settings, r, s.components.network))
            && (thread.pc.result.Failure? ==>
                  || FailedLoading(s.status)
                  || (s.status.phase.AVAILABLE? && s.components == Loaded(s.config, Fresh(s.config))))
  {
    ServesUntilUnlocking(config, loader, moves, states, i, j, t, r);
    RunGood(config, loader, moves, states, j);
    assert Knows(states[j], states[j].threads[t].pc);
    assert states[j].threads[t].guard <==> Guarded(states[j].threads[t].pc);
    assert Purposeful(states[j].threads[t].pc);
    var pc := states[j].threads[t].pc;
    if pc.result.OK? {
      LoadHonours(states[j].config.settings, r, Base(pc.last.value));
    }
  }

  // ----- reloading with another configuration -----

  /** The plain load that a thread is carrying out. */
  function Attempting(pc: Pc): Option<Attempt> {
    match pc
    case Starting(a) => Some(a)
    case Awaiting(a) => Some(a)
    case Building(a) => Some(a)
    case Rebuilding(a, _) => Some(a)
    case Completing(a) => Some(a)
    case Attempted(a, _) => Some(a)
    case Unloading(CustomLoader(a)) => Some(a)
    case Draining(CustomLoader(a)) => Some(a)
    case Clearing(CustomLoader(a)) => Some(a)
    case Cleared(CustomLoader(a)) => Some(a)
    case Unlocking(_, _, _, last) => last
    case _ => None
  }

  /** It is a load with `c` that starts from the network `kept`, or from the files if that was unloaded first. */
  predicate Reloads(pc: Pc, c: Config, kept: Option<Network>) {
    && Attempting(pc).Some?
    && var a := Attempting(pc).value;
       a.stage.Plain? && a.param.NoParam? && a.config == c && (a.kept == kept || a.kept.None?)
  }

  lemma ReloadsKept(s: State, t: nat, u: nat, ch: Choice, c: Config, kept: Option<Network>)
    requires t in s.threads && Knows(s, s.threads[t].pc) && Enabled(s, u, ch) && !s.threads[t].pc.Unlocking?
    requires Reloads(s.threads[t].pc, c, kept)
    ensures t in Do(s, u, ch).threads && Reloads(Do(s, u, ch).threads[t].pc, c, kept)
  {
    hide Rejected, Batched, Shaped, Configure;
    if t != u {
      OtherUnmoved(s, t, u, ch);
    }
  }

  lemma {:induction false} ReloadsUntilUnlocking(config: Config, loader: nat, moves: seq<(nat, Choice)>,
                                                 states: seq<State>,
                                                 i: nat, j: nat, t: nat, c: Config)
    requires IsRun(config, loader, moves, states) && i < j <= |moves| && moves[i].0 == t
    requires t in states[i].threads && states[i].threads[t].pc == Locked(Reload(c))
    requires forall k :: i <= k < j ==> t in states[k].threads ==> !states[k].threads[t].pc.Unlocking?
    ensures t in states[j].threads && Reloads(states[j].threads[t].pc, c, states[i].network)
    decreases j
  {
    var k := j - 1;
    assert Enabled(states[k], moves[k].0, moves[k].1) && states[k + 1] == Do(states[k], moves[k].0, moves[k].1);
    if i < k {
      ReloadsUntilUnlocking(config, loader, moves, states, i, k, t, c);
      RunGood(config, loader, moves, states, k);
      ReloadsKept(states[k], t, moves[k].0, moves[k].1, c, states[i].network);
    }
  }

  /**
    A plain reload.  The thread takes its first step under the mutex at `i` and is about to release it at `j`.
    With OK the model is loaded with `c`, starting from the network that was kept at `i`, unless the custom
    loader had it unloaded; it is the network of a first load exactly when nothing was kept, or what was
    kept differs from the files only in what the configuration sets.
   */
  lemma PlainReloadContract(config: Config, loader: nat, moves: seq<(nat, Choice)>, states: seq<State>,
                            i: nat, j: nat, t: nat, c: Config)
    requires IsRun(config, loader, moves, states) && i < j <= |moves| && moves[i].0 == t
    requires t in states[i].threads && states[i].threads[t].pc == Locked(Reload(c))
    requires forall k :: i <= k < j ==> t in states[k].threads ==> !states[k].threads[t].pc.Unlocking?
    requires t in states[j].threads && states[j].threads[t].pc.Unlocking?
    ensures var s, pc := states[j], states[j].threads[t].pc;
            && pc.last.Some?
            && (pc.last.value.kept == states[i].network || pc.last.value.kept.None?)
            && (pc.result.OK? ==>
                  && s.status.phase.AVAILABLE?
                  && s.components == Loaded(c, Configure(c.settings, NoParam, Base(pc.last.value)))
                  && (s.components == Loaded(c, Fresh(c)) <==>
                        pc.last.value.kept.None? || SameUnder(c.settings, NoParam, pc.last.value.kept.value, c.file)))
  {
    ReloadsUntilUnlocking(config, loader, moves, states, i, j, t, c);
    RunGood(config, loader, moves, states, j);
    var pc := states[j].threads[t].pc;
    assert Knows(states[j], pc);
    if pc.last.value.kept.Some? {
      KeptEqualsRead(c.settings, NoParam, pc.last.value.kept.value, c.file);
    }
  }
}
