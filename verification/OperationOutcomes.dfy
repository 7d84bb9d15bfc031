/**
  How the operations on a model instance end, over every run (src/modelinstance.cpp:523-701): in terms of the
  loads that succeed and fail on the way, and of the states that a request sees.
 */
module OperationOutcomes {
  import opened Wrappers
  import opened NetworkLoading
  import opened InstanceLifecycle

  // ----- the loads of a thread -----

  /** The load that this move of thread `t` ends, and whether it succeeds: some part fails, or the last one does not. */
  function LoadEnds(s: State, t: nat, u: nat, c: Choice): seq<(Attempt, bool)> {
    if u == t && c.Go? && t in s.threads && s.threads[t].pc.Rebuilding? then
      var a, part := s.threads[t].pc.attempt, s.threads[t].pc.part;
      if !c.ok || (part.Shaping? && s.network.Some? && Rejected(a.config.settings, s.network.value)) then [(a, false)]
      else if part.Compiling? then [(a, true)]
      else []
    else []
  }

  /** The loads that thread `t` ends between steps `i` and `j`. */
  function Loads(moves: seq<(nat, Choice)>, states: seq<State>, t: nat, i: nat, j: nat): seq<(Attempt, bool)>
    requires |states| == |moves| + 1 && j <= |moves|
    decreases j
  {
    if j <= i then [] else Loads(moves, states, t, i, j - 1) + LoadEnds(states[j - 1], t, moves[j - 1].0,
        moves[j - 1].1)
  }

  // ----- how an operation ends -----

  /** One load with this configuration, which decides the answer and the state. */
  ghost predicate LoadedOnce(config: Config, s: State, res: Answer, h: seq<(Attempt, bool)>) {
    && |h| == 1 && h[0].0.config == config && h[0].0.param == NoParam
    && (if h[0].1 then res == OK && s.status == Status(AVAILABLE, false)
        else res == Failure && s.status == Status(LOADING, true))
  }

  /**
    A load with the request; if it fails a second one with the request, from no kept network; if that fails too a
    third one without parameter, from no kept network, after which the answer is a failure all the same.
   */
  ghost predicate UpToThreeLoads(r: Param, s: State, res: Answer, h: seq<(Attempt, bool)>) {
    && 1 <= |h| <= 3
    && h[0].0.param == r
    && (h[0].1 <==> |h| == 1)
    && (|h| > 1 ==> h[1].0.param == r && h[1].0.kept == None && (h[1].1 <==> |h| == 2))
    && (|h| > 2 ==> h[2].0.param == NoParam && h[2].0.kept == None)
    && (if |h| < 3 then res == OK && s.status == Status(AVAILABLE, false)
        else res == Failure && s.status == if h[2].1 then Status(AVAILABLE, false) else Status(LOADING, true))
  }

  ghost predicate Outcome(op: Operation, s: State, res: Answer, h: seq<(Attempt, bool)>) {
    match op
    case Load(config) => LoadedOnce(config, s, res, h)
    case Reload(config) => LoadedOnce(config, s, res, h)
    case Retire => res == OK && h == [] && s.status == Status(END, false) && s.components == Empty && s.network == None
    case CleanUp => res == OK && h == [] && s.status == Status(LOADING, true) && s.components == Empty
        && s.network == None
    case Dynamic(r) => if r == NoParam then res == NoParameter && h == [] else UpToThreeLoads(r, s, res, h)
  }

  // ----- where an operation is -----

  ghost predicate FailedOnce(r: Param, h: seq<(Attempt, bool)>) {
    |h| == 1 && !h[0].1 && h[0].0.param == r
  }

  ghost predicate FailedTwice(r: Param, h: seq<(Attempt, bool)>) {
    |h| == 2 && FailedOnce(r, h[..1]) && !h[1].1 && h[1].0.param == r && h[1].0.kept == None
  }

  /** The attempt is the one that comes after the loads `h`. */
  ghost predicate Trying(op: Operation, a: Attempt, h: seq<(Attempt, bool)>) {
    match op
    case Load(config) => a.stage.Plain? && a.config == config && a.param == NoParam && h == []
    case Reload(config) => a.stage.Plain? && a.config == config && a.param == NoParam && h == []
    case Dynamic(r) =>
      && r != NoParam && a.request == r
      && (match a.stage
          case Plain => false
          case First => a.param == r && h == []
          case Full => a.param == r && a.kept == None && FailedOnce(r, h)
          case Recover => a.param == NoParam && a.kept == None && FailedTwice(r, h))
    case _ => false
  }

  ghost predicate Tried(op: Operation, a: Attempt, ok: bool, h: seq<(Attempt, bool)>) {
    h != [] && h[|h| - 1] == (a, ok) && Trying(op, a, h[..|h| - 1])
  }

  ghost predicate UnloadingFor(op: Operation, why: Reason, h: seq<(Attempt, bool)>) {
    match why
    case Permanent => op == Retire && h == []
    case Cleanup => op == CleanUp && h == []
    case CustomLoader(a) => Trying(op, a, h)
    case BeforeFull(q) => op == Dynamic(q) && q != NoParam && FailedOnce(q, h)
    case BeforeRecover(q) => op == Dynamic(q) && q != NoParam && FailedTwice(q, h)
  }

  /** What is known of an operation at each of its program points. */
  ghost predicate Within(op: Operation, s: State, pc: Pc, h: seq<(Attempt, bool)>) {
    match pc
    case Wanting(o) => o == op && h == []
    case Locked(o) => o == op && h == []
    case Renewing(config) => op == Load(config) && h == []
    case Starting(a) => Trying(op, a, h)
    case Awaiting(a) => Trying(op, a, h)
    case Building(a) => Trying(op, a, h)
    case Rebuilding(a, _) => Trying(op, a, h)
    case Completing(a) => Tried(op, a, true, h)
    case Attempted(a, ok) => Tried(op, a, ok, h)
        && s.status == if ok then Status(AVAILABLE, false) else Status(LOADING, true)
    case Unloading(why) => UnloadingFor(op, why, h)
    case Draining(why) => UnloadingFor(op, why, h) && (why.Cleanup? ==> s.status == Status(LOADING, true))
    case Clearing(why) => UnloadingFor(op, why, h) && (why.Cleanup? ==> s.status == Status(LOADING, true))
    case Cleared(why) =>
      && UnloadingFor(op, why, h) && s.components == Empty && s.network == None
      && (why.Cleanup? ==> s.status == Status(LOADING, true))
    case Guarding(a) => (a.stage.First? || a.stage.Full?) && Tried(op, a, true, h)
        && s.status == Status(AVAILABLE, false)
    case Unlocking(res, _, _, _) => Outcome(op, s, res, h)
    case _ => false
  }

  // ----- one step -----

  lemma TriedNow(op: Operation, a: Attempt, ok: bool, h: seq<(Attempt, bool)>)
    requires Trying(op, a, h)
    ensures Tried(op, a, ok, h + [(a, ok)])
  {
    assert (h + [(a, ok)])[..|h|] == h;
  }

  /** The thread ends a load or goes on with it. */
  lemma LoadWithin(op: Operation, s: State, t: nat, c: Choice, h: seq<(Attempt, bool)>)
    requires t in s.threads && s.threads[t].pc.Rebuilding? && c.Go? && Enabled(s, t, c)
    requires s.threads[t].pc.part.Shaping? ==> s.network.Some?
    requires Within(op, s, s.threads[t].pc, h)
    ensures t in Do(s, t, c).threads && Within(op, Do(s, t, c), Do(s, t, c).threads[t].pc, h + LoadEnds(s, t, t, c))
  {
    var a := s.threads[t].pc.attempt;
    assert Trying(op, a, h);
    hide Do, LoadEnds, Trying, Within, Enabled;
    PartEnds(s, t, c);
    AfterPart(op, Do(s, t, c), t, a, LoadEnds(s, t, t, c), h);
  }

  lemma AfterPart(op: Operation, n: State, t: nat, a: Attempt, ends: seq<(Attempt, bool)>, h: seq<(Attempt, bool)>)
    requires Trying(op, a, h) && PartLeads(n, t, a, ends)
    ensures Within(op, n, n.threads[t].pc, h + ends)
  {
    hide Trying, Tried, UnloadingFor, Outcome;
    TriedNow(op, a, true, h);
    TriedNow(op, a, false, h);
    assert h + [] == h;
  }

  /** After a part the load has failed, has succeeded, or goes on. */
  ghost predicate PartLeads(n: State, t: nat, a: Attempt, ends: seq<(Attempt, bool)>) {
    && t in n.threads
    && (|| (ends == [(a, false)] && n.threads[t].pc == Attempted(a, false) && n.status == Status(LOADING, true))
        || (ends == [(a, true)] && n.threads[t].pc == Completing(a))
        || (ends == [] && n.threads[t].pc.Rebuilding? && n.threads[t].pc.attempt == a))
  }

  /** Where a part of a load leads. */
  lemma PartEnds(s: State, t: nat, c: Choice)
    requires t in s.threads && s.threads[t].pc.Rebuilding? && c.Go? && Enabled(s, t, c)
    requires s.threads[t].pc.part.Shaping? ==> s.network.Some?
    ensures PartLeads(Do(s, t, c), t, s.threads[t].pc.attempt, LoadEnds(s, t, t, c))
  {
    hide Rejected, Batched, Shaped, Configure;
    assert Do(s, t, c) == Rebuild(s, t, s.threads[t].pc.attempt, s.threads[t].pc.part, c.ok);
  }

  /** What follows a load that has ended. */
  lemma AttemptedWithin(op: Operation, s: State, t: nat, c: Choice, h: seq<(Attempt, bool)>)
    requires t in s.threads && s.threads[t].pc.Attempted? && c.Go? && Enabled(s, t, c)
             && Within(op, s, s.threads[t].pc, h)
    ensures t in Do(s, t, c).threads && Within(op, Do(s, t, c), Do(s, t, c).threads[t].pc, h)
  {
    var a, ok := s.threads[t].pc.attempt, s.threads[t].pc.ok;
    assert Tried(op, a, ok, h);
    assert Do(s, t, c) == AttemptStep(s, t, s.threads[t].pc, c.ok, c.resetLoader);
    assert Do(s, t, c) == Move(s, t, AfterAttempt(a, ok));
    hide Do, Tried, Within, AfterAttempt;
    AfterWithin(op, s, a, ok, h);
    SameStateWithin(op, s, Do(s, t, c), AfterAttempt(a, ok), h);
  }

  lemma AfterWithin(op: Operation, s: State, a: Attempt, ok: bool, h: seq<(Attempt, bool)>)
    requires Within(op, s, Attempted(a, ok), h)
    ensures Within(op, s, AfterAttempt(a, ok), h)
  {
    var before := h[..|h| - 1];
    assert h == before + [(a, ok)] && Trying(op, a, before);
    match a.stage
    case Plain =>
      assert before == [];
    case First =>
      assert before == [];
    case Full =>
      assert |h| == 2 && h[..1] == before;
    case Recover =>
      assert |h| == 3 && h[..2] == before && h[..1] == before[..1];
  }

  lemma AttemptWithin(op: Operation, s: State, t: nat, c: Choice, h: seq<(Attempt, bool)>)
    requires t in s.threads && InAttempt(s.threads[t].pc) && c.Go? && Enabled(s, t, c)
    requires Knows(s, s.threads[t].pc) && Within(op, s, s.threads[t].pc, h)
    ensures t in Do(s, t, c).threads && Within(op, Do(s, t, c), Do(s, t, c).threads[t].pc, h + LoadEnds(s, t, t, c))
  {
    var pc := s.threads[t].pc;
    assert pc.Rebuilding? && pc.part.Shaping? ==> s.network.Some?;
    assert h + [] == h;
    assert !pc.Rebuilding? ==> LoadEnds(s, t, t, c) == [];
    hide Knows, Within, Do, LoadEnds, Enabled;
    if pc.Rebuilding? {
      LoadWithin(op, s, t, c, h);
    } else if pc.Attempted? {
      AttemptedWithin(op, s, t, c, h);
    } else {
      BetweenLoadsWithin(op, s, t, c, h);
    }
  }

  lemma BetweenLoadsWithin(op: Operation, s: State, t: nat, c: Choice, h: seq<(Attempt, bool)>)
    requires t in s.threads && InAttempt(s.threads[t].pc) && c.Go? && Enabled(s, t, c)
    requires !s.threads[t].pc.Rebuilding? && !s.threads[t].pc.Attempted? && Within(op, s, s.threads[t].pc, h)
    ensures t in Do(s, t, c).threads && Within(op, Do(s, t, c), Do(s, t, c).threads[t].pc, h)
  {
    hide Trying, Tried, Outcome, Rebuild;
    assert Do(s, t, c) == AttemptStep(s, t, s.threads[t].pc, c.ok, c.resetLoader);
  }

  lemma UnloadWithin(op: Operation, s: State, t: nat, c: Choice, h: seq<(Attempt, bool)>)
    requires t in s.threads && InUnload(s.threads[t].pc) && c.Go? && Enabled(s, t, c)
    requires Within(op, s, s.threads[t].pc, h)
    ensures t in Do(s, t, c).threads && Within(op, Do(s, t, c), Do(s, t, c).threads[t].pc, h)
  {
    hide FailedOnce, FailedTwice, Tried;
    assert Do(s, t, c) == UnloadStep(s, t, s.threads[t].pc);
  }

  /** A dynamic reload that is about to make the guard. */
  lemma GuardingWithin(op: Operation, s: State, t: nat, c: Choice, h: seq<(Attempt, bool)>)
    requires t in s.threads && s.threads[t].pc.Guarding? && c.Go? && Enabled(s, t, c)
             && Within(op, s, s.threads[t].pc, h)
    ensures t in Do(s, t, c).threads && Within(op, Do(s, t, c), Do(s, t, c).threads[t].pc, h)
  {
    var a := s.threads[t].pc.attempt;
    assert h == h[..|h| - 1] + [(a, true)];
    assert Do(s, t, c) == OperationStep(s, t, s.threads[t].pc);
  }

  lemma OperationWithin(op: Operation, s: State, t: nat, c: Choice, h: seq<(Attempt, bool)>)
    requires t in s.threads && InOperation(s.threads[t].pc) && !s.threads[t].pc.Unlocking? && c.Go? && Enabled(s, t, c)
    requires Within(op, s, s.threads[t].pc, h)
    ensures t in Do(s, t, c).threads && Within(op, Do(s, t, c), Do(s, t, c).threads[t].pc, h)
  {
    if s.threads[t].pc.Guarding? {
      GuardingWithin(op, s, t, c, h);
    } else {
      hide FailedOnce, FailedTwice, Tried;
      assert Do(s, t, c) == OperationStep(s, t, s.threads[t].pc);
    }
  }

  lemma OwnStep(op: Operation, s: State, t: nat, c: Choice, h: seq<(Attempt, bool)>)
    requires Good(s) && t in s.threads && !s.threads[t].pc.Unlocking? && Enabled(s, t, c)
    requires Within(op, s, s.threads[t].pc, h)
    ensures t in Do(s, t, c).threads && Within(op, Do(s, t, c), Do(s, t, c).threads[t].pc, h + LoadEnds(s, t, t, c))
  {
    var pc := s.threads[t].pc;
    assert Knows(s, pc);
    assert h + [] == h;
    assert InAttempt(pc) || InUnload(pc) || InOperation(pc);
    hide Do, Knows, Within, Good, Enabled;
    if InAttempt(pc) {
      AttemptWithin(op, s, t, c, h);
    } else if InUnload(pc) {
      UnloadWithin(op, s, t, c, h);
    } else {
      OperationWithin(op, s, t, c, h);
    }
  }

  /** Another thread's step does not change what the operation relies on. */
  lemma OtherStep(op: Operation, s: State, t: nat, u: nat, c: Choice, h: seq<(Attempt, bool)>)
    requires Good(s) && t in s.threads && u != t && Enabled(s, u, c) && Within(op, s, s.threads[t].pc, h)
    ensures t in Do(s, u, c).threads && Within(op, Do(s, u, c), Do(s, u, c).threads[t].pc, h)
  {
    OtherUnmoved(s, t, u, c);
    assert Ready(s, u);
    DoSound(s, u, c);
    hide Do, Knows, Enabled, Trying, Tried, UnloadingFor, Outcome;
    var pc := s.threads[t].pc;
    if OwnsLock(pc) {
      assert !OwnsLock(PcOf(s, u));
      SameStateWithin(op, s, Do(s, u, c), pc, h);
    } else {
      assert pc.Wanting?;
    }
  }

  lemma SameStateWithin(op: Operation, s: State, n: State, pc: Pc, h: seq<(Attempt, bool)>)
    requires n.status == s.status && n.components == s.components && n.network == s.network
    requires Within(op, s, pc, h)
    ensures Within(op, n, pc, h)
  {
    hide Trying, Tried, UnloadingFor;
  }

  lemma {:induction false} RunWithin(config: Config, loader: nat, moves: seq<(nat, Choice)>, states: seq<State>,
                                     i: nat, j: nat, t: nat, op: Operation)
    requires IsRun(config, loader, moves, states) && i <= j <= |moves|
    requires t in states[i].threads && (states[i].threads[t].pc == Wanting(op) || states[i].threads[t].pc == Locked(op))
    requires forall k :: i <= k < j ==> t in states[k].threads ==> !states[k].threads[t].pc.Unlocking?
    ensures t in states[j].threads && Within(op, states[j], states[j].threads[t].pc, Loads(moves, states, t, i, j))
    decreases j
  {
    hide Do, Within, Good, Enabled;
    if i < j {
      var k := j - 1;
      RunWithin(config, loader, moves, states, i, k, t, op);
      RunGood(config, loader, moves, states, k);
      RunStep(config, loader, moves, states, k);
      MoveWithin(op, states[k], states[k + 1], t, moves[k].0, moves[k].1, Loads(moves, states, t, i, k));
    } else {
      NotBegun(op, states[i], states[i].threads[t].pc);
    }
  }

  lemma NotBegun(op: Operation, s: State, pc: Pc)
    requires pc == Wanting(op) || pc == Locked(op)
    ensures Within(op, s, pc, [])
  {
  }

  lemma MoveWithin(op: Operation, s: State, n: State, t: nat, u: nat, c: Choice, h: seq<(Attempt, bool)>)
    requires Good(s) && Enabled(s, u, c) && n == Do(s, u, c)
    requires t in s.threads && !s.threads[t].pc.Unlocking? && Within(op, s, s.threads[t].pc, h)
    ensures t in n.threads && Within(op, n, n.threads[t].pc, h + LoadEnds(s, t, u, c))
  {
    hide Do, Within, Good, Enabled;
    if u == t {
      OwnStep(op, s, t, c, h);
    } else {
      OtherStep(op, s, t, u, c, h);
      assert h + [] == h;
    }
  }

  // ----- the theorems -----

  /**
    How an operation ends,
        by the loads that its thread has ended since it asked for the mutex: a load or plain reload is
    decided by its one load, a retirement ends the instance, a clean-up leaves it failed, both without
    components, and a dynamic reload makes up to three loads.
   */
  lemma OperationOutcome(config: Config, loader: nat, moves: seq<(nat, Choice)>, states: seq<State>,
                         i: nat, j: nat, t: nat, op: Operation)
    requires IsRun(config, loader, moves, states) && i <= j <= |moves|
    requires t in states[i].threads && (states[i].threads[t].pc == Wanting(op) || states[i].threads[t].pc == Locked(op))
    requires forall k :: i <= k < j ==> t in states[k].threads ==> !states[k].threads[t].pc.Unlocking?
    requires t in states[j].threads && states[j].threads[t].pc.Unlocking?
    ensures Outcome(op, states[j], states[j].threads[t].pc.result, Loads(moves, states, t, i, j))
  {
    hide Outcome, Within;
    RunWithin(config, loader, moves, states, i, j, t, op);
    WithinUnlocking(op, states[j], states[j].threads[t].pc, Loads(moves, states, t, i, j));
  }

  lemma WithinUnlocking(op: Operation, s: State, pc: Pc, h: seq<(Attempt, bool)>)
    requires pc.Unlocking? && Within(op, s, pc, h)
    ensures Outcome(op, s, pc.result, h)
  {
    hide Outcome;
  }

  /**
    The dynamic reload, read off its loads: OK if and only if the first load with the request succeeds, or it fails and
    a second one, from no kept network, succeeds; a failure means that both failed and a third load without parameter
    was made, and the model is then available if and only if that one succeeded, and failed otherwise.
   */
  lemma DynamicReloadOutcome(config: Config, loader: nat, moves: seq<(nat, Choice)>, states: seq<State>,
                             i: nat, j: nat, t: nat, r: Param)
    requires IsRun(config, loader, moves, states) && i <= j <= |moves| && r != NoParam
    requires t in states[i].threads && states[i].threads[t].pc == Wanting(Dynamic(r))
    requires forall k :: i <= k < j ==> t in states[k].threads ==> !states[k].threads[t].pc.Unlocking?
    requires t in states[j].threads && states[j].threads[t].pc.Unlocking?
    ensures var res, h := states[j].threads[t].pc.result, Loads(moves, states, t, i, j);
            && |h| >= 1 && h[0].0.param == r
            && (res == OK <==> h[0].1 || (|h| == 2 && h[1].0.param == r && h[1].0.kept == None && h[1].1))
            && (res != OK <==> res == Failure)
            && (res == Failure ==>
                  && |h| == 3 && !h[0].1 && !h[1].1 && h[1].0.param == r && h[1].0.kept == None
                  && h[2].0.param == NoParam && h[2].0.kept == None
                  && states[j].status == if h[2].1 then Status(AVAILABLE, false) else Status(LOADING, true))
  {
    OperationOutcome(config, loader, moves, states, i, j, t, Dynamic(r));
  }
}
