/**
  How `waitForLoaded` answers a request (src/modelinstance.cpp:634-682), over every run: in terms of the states that the
  request's thread sees at its tests.
 */
module RequestAnswers {
  import opened Wrappers
  import opened NetworkLoading
  import opened InstanceLifecycle

  /** The phase that thread `t` sees at this move, if it is a test. */
  function TestOf(s: State, t: nat, u: nat, c: Choice): seq<Phase> {
    if u == t && c.Go? && t in s.threads && s.threads[t].pc.Testing? then [s.status.phase] else []
  }

  /** The phases that thread `t` sees between steps `i` and `j`. */
  function Tests(moves: seq<(nat, Choice)>, states: seq<State>, t: nat, i: nat, j: nat): seq<Phase>
    requires |states| == |moves| + 1 && j <= |moves|
    decreases j
  {
    if j <= i then [] else Tests(moves, states, t, i, j - 1) + TestOf(states[j - 1], t, moves[j - 1].0, moves[j - 1].1)
  }

  ghost predicate NoneAvailable(tests: seq<Phase>) {
    forall k :: 0 <= k < |tests| ==> tests[k] != AVAILABLE
  }

  /** Where a request that may look `checks` more times is, after the tests it has made. */
  ghost predicate Asking(checks: nat, pc: Pc, tests: seq<Phase>) {
    match pc
    case Arriving(m, first) => NoneAvailable(tests) && m <= checks && |tests| == checks - m && (first <==> m == checks)
    case Testing(m, first) => NoneAvailable(tests) && m <= checks && |tests| == checks - m && (first <==> m == checks)
    case Dropping(m, first) => NoneAvailable(tests) && m <= checks && |tests| == checks - m + 1
    case Dropped(m) => NoneAvailable(tests) && m <= checks && |tests| == checks - m + 1
    case Looping(m) => NoneAvailable(tests) && m <= checks && |tests| == checks - m + 1
    case TimedOut => NoneAvailable(tests) && |tests| == checks + 1
    case Using(_) => tests != [] && tests[|tests| - 1] == AVAILABLE && NoneAvailable(tests[..|tests| - 1])
    case Ended(answer) =>
      && NoneAvailable(tests) && 1 <= |tests| <= checks + 1
      && (answer == NotLoadedAnymore || (answer == NotLoadedYet && |tests| == checks + 1))
    case _ => false
  }

  predicate Answered(pc: Pc) {
    pc.Using? || pc.Ended?
  }

  lemma TestStep(checks: nat, s: State, t: nat, c: Choice, tests: seq<Phase>)
    requires t in s.threads && s.threads[t].pc.Testing? && c.Go? && Enabled(s, t, c)
             && Asking(checks, s.threads[t].pc, tests)
    ensures var n := Do(s, t, c);
            t in n.threads && Asking(checks, n.threads[t].pc, tests + TestOf(s, t, t, c))
  {
    var after := tests + [s.status.phase];
    assert after[..|after| - 1] == tests;
    assert Do(s, t, c) == RequestStep(s, t, s.threads[t].pc);
  }

  /** The moves other than a test. */
  lemma QuietStep(checks: nat, s: State, t: nat, pc: Pc, tests: seq<Phase>)
    requires t in s.threads && !pc.Testing? && !Answered(pc) && Asking(checks, pc, tests)
    ensures var n := RequestStep(s, t, pc);
            t in n.threads && Asking(checks, n.threads[t].pc, tests)
  {
    hide NoneAvailable;
  }

  lemma OwnStep(checks: nat, s: State, t: nat, c: Choice, tests: seq<Phase>)
    requires t in s.threads && !Answered(s.threads[t].pc) && Enabled(s, t, c) && Asking(checks, s.threads[t].pc, tests)
    ensures var n := Do(s, t, c);
            t in n.threads && Asking(checks, n.threads[t].pc, tests + TestOf(s, t, t, c))
  {
    var pc := s.threads[t].pc;
    if pc.Testing? {
      hide Do, Enabled, Asking;
      TestStep(checks, s, t, c, tests);
    } else {
      assert tests + [] == tests && TestOf(s, t, t, c) == [];
      assert Do(s, t, c) == RequestStep(s, t, pc);
      hide Do, Enabled, Asking, RequestStep, TestOf;
      QuietStep(checks, s, t, pc, tests);
    }
  }

  lemma {:induction false} RunAsks(config: Config, loader: nat, moves: seq<(nat, Choice)>, states: seq<State>,
                                   i: nat, j: nat, t: nat, checks: nat)
    requires IsRun(config, loader, moves, states) && i < j <= |moves| && moves[i] == (t, Request(checks))
    requires forall k :: i < k < j ==> t in states[k].threads ==> !Answered(states[k].threads[t].pc)
    ensures t in states[j].threads && Asking(checks, states[j].threads[t].pc, Tests(moves, states, t, i + 1, j))
    decreases j
  {
    hide Asking, Enabled, Do, Answered;
    var k := j - 1;
    RunStep(config, loader, moves, states, k);
    if i < k {
      RunAsks(config, loader, moves, states, i, k, t, checks);
      MoveAsks(checks, states[k], states[j], t, moves[k].0, moves[k].1, Tests(moves, states, t, i + 1, k));
    } else {
      Begins(checks, states[i], states[j], t);
    }
  }

  lemma Begins(checks: nat, s: State, n: State, t: nat)
    requires Enabled(s, t, Request(checks)) && n == Do(s, t, Request(checks))
    ensures t in n.threads && Asking(checks, n.threads[t].pc, [])
  {
  }

  lemma MoveAsks(checks: nat, s: State, n: State, t: nat, u: nat, c: Choice, tests: seq<Phase>)
    requires Enabled(s, u, c) && n == Do(s, u, c)
    requires t in s.threads && !Answered(s.threads[t].pc) && Asking(checks, s.threads[t].pc, tests)
    ensures t in n.threads && Asking(checks, n.threads[t].pc, tests + TestOf(s, t, u, c))
  {
    hide Asking, Enabled, Do, Answered;
    if u == t {
      OwnStep(checks, s, t, c, tests);
    } else {
      OtherUnmoved(s, t, u, c);
      assert tests + [] == tests;
    }
  }

  /**
    A request is answered OK at its first test that sees the model available, and only then.  Otherwise it is told that
    the model is not loaded any more, or, when all its tests have seen nothing, that it is not loaded yet.
   */
  lemma AnsweredByTests(config: Config, loader: nat, moves: seq<(nat, Choice)>, states: seq<State>,
                        i: nat, j: nat, t: nat, checks: nat)
    requires IsRun(config, loader, moves, states) && i < j <= |moves| && moves[i] == (t, Request(checks))
    requires forall k :: i < k < j ==> t in states[k].threads ==> !Answered(states[k].threads[t].pc)
    requires t in states[j].threads
    ensures var pc, tests := states[j].threads[t].pc, Tests(moves, states, t, i + 1, j);
            && (pc.Using? <==> exists k :: 0 <= k < |tests| && tests[k] == AVAILABLE)
            && (pc.Using? ==> tests[|tests| - 1] == AVAILABLE && forall k :: 0 <= k < |tests| - 1 ==>
                 tests[k] != AVAILABLE)
            && (pc.Ended? ==>
                 1 <= |tests| <= checks + 1 && (pc.result == NotLoadedAnymore || pc.result == NotLoadedYet))
            && (pc.Ended? && pc.result == NotLoadedYet ==> |tests| == checks + 1)
  {
    RunAsks(config, loader, moves, states, i, j, t, checks);
    hide IsRun, Tests;
    var tests := Tests(moves, states, t, i + 1, j);
    if states[j].threads[t].pc.Using? {
      forall k | 0 <= k < |tests| - 1 ensures tests[k] != AVAILABLE {
        assert tests[..|tests| - 1][k] == tests[k];
      }
    }
  }

  /** The negative answer says whether the model was unloading or had ended when the request looked last. */
  lemma RefusedByPhase(s: State, t: nat, ok: bool, reset: bool)
    requires t in s.threads && (s.threads[t].pc.Dropped? || s.threads[t].pc.TimedOut?)
    ensures var pc := Do(s, t, Go(ok, reset)).threads[t].pc;
            if s.status.phase == UNLOADING || s.status.phase == END then pc == Ended(NotLoadedAnymore)
            else if s.threads[t].pc.TimedOut? then pc == Ended(NotLoadedYet)
            else pc == Looping(s.threads[t].pc.checks)
  {
    assert Do(s, t, Go(ok, reset)) == RequestStep(s, t, s.threads[t].pc);
  }

  // ----- a model that is not retired -----

  /** The thread has no part in a retirement. */
  predicate ServesOn(pc: Pc) {
    match pc
    case Wanting(op) => !op.Retire?
    case Locked(op) => !op.Retire?
    case Unloading(why) => !why.Permanent?
    case Draining(why) => !why.Permanent?
    case Clearing(why) => !why.Permanent?
    case Cleared(why) => !why.Permanent?
    case Unlocking(answer, _, _, _) => answer != NotLoadedAnymore
    case Ended(answer) => answer != NotLoadedAnymore
    case _ => true
  }

  ghost predicate InService(s: State) {
    && s.status.phase != UNLOADING && s.status.phase != END
    && forall t :: t in s.threads ==> ServesOn(s.threads[t].pc)
  }

  lemma StaysInService(s: State, t: nat, c: Choice)
    requires InService(s) && Enabled(s, t, c) && c != Submit(Retire)
    ensures InService(Do(s, t, c))
  {
    forall u | u in Do(s, t, c).threads && u != t ensures ServesOn(Do(s, t, c).threads[u].pc) {
      OtherUnmoved(s, u, t, c);
    }
    OwnServesOn(s, t, c);
  }

  /** The thread `t` of `n` has no part in a retirement, and neither has the state. */
  ghost predicate OneInService(n: State, t: nat) {
    && n.status.phase != UNLOADING && n.status.phase != END
    && (t in n.threads ==> ServesOn(n.threads[t].pc))
  }

  lemma AttemptServesOn(s: State, t: nat, pc: Pc, ok: bool, reset: bool)
    requires InService(s) && InAttempt(pc) && ServesOn(pc)
    ensures OneInService(AttemptStep(s, t, pc, ok, reset), t)
  {
    hide Rejected, Batched, Shaped;
  }

  lemma UnloadServesOn(s: State, t: nat, pc: Pc)
    requires InService(s) && InUnload(pc) && ServesOn(pc)
    ensures OneInService(UnloadStep(s, t, pc), t)
  {
  }

  lemma OperationServesOn(s: State, t: nat, pc: Pc)
    requires InService(s) && InOperation(pc) && ServesOn(pc)
    ensures OneInService(OperationStep(s, t, pc), t)
  {
  }

  lemma RequestServesOn(s: State, t: nat, pc: Pc)
    requires InService(s) && ServesOn(pc)
    ensures OneInService(RequestStep(s, t, pc), t)
  {
  }

  lemma OwnServesOn(s: State, t: nat, c: Choice)
    requires InService(s) && Enabled(s, t, c) && c != Submit(Retire)
    ensures OneInService(Do(s, t, c), t)
  {
    if c.Go? {
      var pc := s.threads[t].pc;
      assert ServesOn(pc);
      assert Do(s, t, c) == if InAttempt(pc) then AttemptStep(s, t, pc, c.ok, c.resetLoader)
                            else if InUnload(pc) then UnloadStep(s, t, pc)
                            else if InOperation(pc) then OperationStep(s, t, pc)
                            else RequestStep(s, t, pc);
      hide Do, Enabled, InService, OneInService, ServesOn, AttemptStep, UnloadStep, OperationStep, RequestStep;
      if InAttempt(pc) {
        AttemptServesOn(s, t, pc, c.ok, c.resetLoader);
      } else if InUnload(pc) {
        UnloadServesOn(s, t, pc);
      } else if InOperation(pc) {
        OperationServesOn(s, t, pc);
      } else {
        RequestServesOn(s, t, pc);
      }
    }
  }

  /**
    Whatever loads and reloads fail, a model that nobody retires is never seen unloading or ended,
        and no request is told
    that it is not loaded any more.
   */
  lemma {:induction false} RefusedOnlyByRetirement(config: Config, loader: nat, moves: seq<(nat, Choice)>,
                                                   states: seq<State>, k: nat)
    requires IsRun(config, loader, moves, states) && k <= |moves|
    requires forall i :: 0 <= i < k ==> moves[i].1 != Submit(Retire)
    ensures states[k].status.phase != UNLOADING && states[k].status.phase != END
    ensures forall t :: t in states[k].threads ==> states[k].threads[t].pc != Ended(NotLoadedAnymore)
    ensures InService(states[k])
  {
    hide Enabled, Do;
    if k > 0 {
      RefusedOnlyByRetirement(config, loader, moves, states, k - 1);
      RunStep(config, loader, moves, states, k - 1);
      StaysInService(states[k - 1], moves[k - 1].0, moves[k - 1].1);
    }
  }
}
