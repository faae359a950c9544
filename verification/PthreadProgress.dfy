/** What the operations of the pthread OS layer get done: what a thread left alone does at every turn of its wait loops,
    and that whoever is cancelled or out of time leaves them. */
module PthreadProgress {
  import opened Basics
  import opened PthreadOsal

  function Do(s: State, step: Step): Option<State> {
    var a := Act(s, step);
    if a.None? then None else Some(Apply(s, a.value))
  }

  /** Thread `t` makes `n` steps of its operation with nobody else in between. */
  function Alone(s: State, t: Tid, n: nat): Option<State>
    decreases n
  {
    if n == 0 then Some(s)
    else
      var r := Do(s, Continue(t));
      if r.None? then None else Alone(r.value, t, n - 1)
  }

  predicate Runs(s: State, t: Tid, op: Op) { t in s.threads && s.threads[t].phase == Running && s.threads[t].op == op }

  /** `s` after thread `t` went on to `op` and these events happened; threads and semaphores are otherwise as before. */
  ghost predicate WentOn(s: State, r: Option<State>, t: Tid, op: Op, events: seq<Event>)
    requires t in s.threads
  {
    && r.Some? && r.value.threads == s.threads[t := s.threads[t].(op := op)]
    && r.value.log == s.log + events && r.value.clock == s.clock
  }

  predicate CancelPending(s: State, t: Tid)
    requires t in s.threads
  {
    s.threads[t].ptd.Some? && s.threads[t].ptd.value.cancel > 0
  }

  /** One turn of the cancellable pend. With a unit there it takes it and returns PTE_OS_OK; else with the limit passed
      it returns PTE_OS_TIMEOUT; else cancelled it returns PTE_OS_INTERRUPTED; else it yields and tries again. */
  lemma PendTurn(s: State, t: Tid, x: SemId, limit: nat, since: nat)
    requires Runs(s, t, PendTry(x, limit, since)) && x in s.sems
    ensures var expired := limit > 0 && s.clock - since > limit;
      if s.sems[x] > 0 then
        var r := Alone(s, t, 2);
        && WentOn(s, r, t, Idle, [Took(t, x), Pended(t, x, OK, Cancellable(limit))])
        && r.value.sems == s.sems[x := s.sems[x] - 1]
      else if expired then
        var r := Alone(s, t, 3);
        WentOn(s, r, t, Idle, [Pended(t, x, TIMEOUT, Cancellable(limit))]) && r.value.sems == s.sems
      else if CancelPending(s, t) then
        var r := Alone(s, t, 4);
        WentOn(s, r, t, Idle, [Pended(t, x, INTERRUPTED, Cancellable(limit))]) && r.value.sems == s.sems
      else
        var r := Alone(s, t, 4);
        WentOn(s, r, t, PendTry(x, limit, since), [PassedCheck(t)]) && r.value.sems == s.sems
  {
    if s.sems[x] > 0 {
      PendTakes(s, t, x, limit, since);
    } else if limit > 0 && s.clock - since > limit {
      PendExpires(s, t, x, limit, since);
    } else {
      PendLooks(s, t, x, limit, since);
    }
  }

  lemma PendExpires(s: State, t: Tid, x: SemId, limit: nat, since: nat)
    requires Runs(s, t, PendTry(x, limit, since)) && x in s.sems && s.sems[x] == 0
    requires limit > 0 && s.clock - since > limit
    ensures var r := Alone(s, t, 3);
      WentOn(s, r, t, Idle, [Pended(t, x, TIMEOUT, Cancellable(limit))]) && r.value.sems == s.sems
  {
    var s1 := Do(s, Continue(t)).value;
    var s2 := Do(s1, Continue(t)).value;
    var s3 := Do(s2, Continue(t)).value;
    assert Alone(s, t, 3) == Alone(s1, t, 2) == Alone(s2, t, 1) == Alone(s3, t, 0);
  }

  lemma PendLooks(s: State, t: Tid, x: SemId, limit: nat, since: nat)
    requires Runs(s, t, PendTry(x, limit, since)) && x in s.sems && s.sems[x] == 0
    requires !(limit > 0 && s.clock - since > limit)
    ensures var r := Alone(s, t, 4);
      && r.Some? && r.value.sems == s.sems
      && if CancelPending(s, t) then WentOn(s, r, t, Idle, [Pended(t, x, INTERRUPTED, Cancellable(limit))])
         else WentOn(s, r, t, PendTry(x, limit, since), [PassedCheck(t)])
  {
    var q := PendToCheck(s, t, x, limit, since);
    CheckTurn(q, t, x, limit, since);
    assert q.threads[t := q.threads[t].(op := Idle)] == s.threads[t := s.threads[t].(op := Idle)];
  }

  lemma PendToCheck(s: State, t: Tid, x: SemId, limit: nat, since: nat) returns (q: State)
    requires Runs(s, t, PendTry(x, limit, since)) && x in s.sems && s.sems[x] == 0
    requires !(limit > 0 && s.clock - since > limit)
    ensures q == s.(threads := s.threads[t := s.threads[t].(op := PendCancel(x, limit, since))])
    ensures Alone(s, t, 4) == Alone(q, t, 2)
  {
    var s1 := Do(s, Continue(t)).value;
    q := Do(s1, Continue(t)).value;
    assert Alone(s, t, 4) == Alone(s1, t, 3) == Alone(q, t, 2);
    assert q.threads == s.threads[t := s.threads[t].(op := PendCancel(x, limit, since))];
  }

  lemma CheckTurn(s: State, t: Tid, x: SemId, limit: nat, since: nat)
    requires Runs(s, t, PendCancel(x, limit, since))
    ensures var r := Alone(s, t, 2);
      && r.Some? && r.value.sems == s.sems
      && if CancelPending(s, t) then WentOn(s, r, t, Idle, [Pended(t, x, INTERRUPTED, Cancellable(limit))])
         else WentOn(s, r, t, PendTry(x, limit, since), [PassedCheck(t)])
  {
    var s1 := Do(s, Continue(t)).value;
    var s2 := Do(s1, Continue(t)).value;
    assert Alone(s, t, 2) == Alone(s1, t, 1) == Alone(s2, t, 0);
  }

  lemma PendTakes(s: State, t: Tid, x: SemId, limit: nat, since: nat)
    requires Runs(s, t, PendTry(x, limit, since)) && x in s.sems && s.sems[x] > 0
    ensures var r := Alone(s, t, 2);
      && WentOn(s, r, t, Idle, [Took(t, x), Pended(t, x, OK, Cancellable(limit))])
      && r.value.sems == s.sems[x := s.sems[x] - 1]
  {
    var s1 := Do(s, Continue(t)).value;
    var s2 := Do(s1, Continue(t)).value;
    assert Alone(s, t, 2) == Alone(s1, t, 1) == Alone(s2, t, 0);
  }

  /** The plain pend takes a unit if there is one, and otherwise waits, or times out if it has a limit. */
  lemma DownTurn(s: State, t: Tid, x: SemId, timed: bool)
    requires Runs(s, t, Down(x, timed)) && x in s.sems
    ensures if s.sems[x] > 0 then
        var r := Alone(s, t, 2);
        && WentOn(s, r, t, Idle, [Took(t, x), Pended(t, x, OK, Plain(timed))])
        && r.value.sems == s.sems[x := s.sems[x] - 1]
      else
        && Do(s, Continue(t)).None?
        && (timed <==> Do(s, DownTimesOut(t)).Some?)
        && (timed ==> WentOn(s, Do(s, DownTimesOut(t)), t, Leave(x, TIMEOUT, Plain(true)), []))
  {
    if s.sems[x] > 0 {
      var s1 := Do(s, Continue(t)).value;
      var s2 := Do(s1, Continue(t)).value;
      assert Alone(s, t, 2) == Alone(s1, t, 1) == Alone(s2, t, 0);
    }
  }

  /** A post of `n` units ups the semaphore `n` times and returns. */
  lemma {:induction false} PostTurn(s: State, t: Tid, x: SemId, n: nat)
    requires Runs(s, t, Post(x, n)) && x in s.sems
    ensures var r := Alone(s, t, n + 1);
      r.Some? && Runs(r.value, t, Idle) && r.value.sems == s.sems[x := s.sems[x] + n]
    decreases n
  {
    var s1 := Do(s, Continue(t)).value;
    if n > 0 {
      PostTurn(s1, t, x, n - 1);
      assert s.sems[x := s.sems[x] + 1][x := s.sems[x] + n] == s.sems[x := s.sems[x] + n];
    } else {
      assert Alone(s, t, 1) == Alone(s1, t, 0);
    }
  }

  /** One turn of waiting for a thread's end: done, it is waited for and PTE_OS_OK returned; else cancelled the wait is
      interrupted; else it yields and looks again. */
  lemma JoinTurn(s: State, t: Tid, u: Tid)
    requires Runs(s, t, JoinDone(u)) && u in s.threads && s.threads[u].ptd.Some?
    ensures if s.threads[u].ptd.value.done then
        s.threads[u].phase == Exited ==> WentOn(s, Alone(s, t, 2), t, Idle, [Joined(t, u, OK)])
      else if CancelPending(s, t) then WentOn(s, Alone(s, t, 2), t, Idle, [Joined(t, u, INTERRUPTED)])
      else WentOn(s, Alone(s, t, 3), t, JoinDone(u), [PassedCheck(t)])
  {
    var s1 := Do(s, Continue(t)).value;
    if s.threads[u].ptd.value.done {
      if s.threads[u].phase == Exited {
        var s2 := Do(s1, Continue(t)).value;
        assert Alone(s, t, 2) == Alone(s1, t, 1) == Alone(s2, t, 0);
      }
    } else {
      var s2 := Do(s1, Continue(t)).value;
      assert Alone(s, t, 2) == Alone(s1, t, 1) == Alone(s2, t, 0);
      if !CancelPending(s, t) {
        var s3 := Do(s2, Continue(t)).value;
        assert Alone(s, t, 3) == Alone(s1, t, 2) == Alone(s2, t, 1) == Alone(s3, t, 0);
      }
    }
  }

  /** A thread that exits can be waited for: the join of another finds it done and gone. */
  lemma ExitThenJoin(s: State, u: Tid, w: Tid) returns (s1: State, s2: State, s3: State)
    requires u != w && CanCall(s, u) && CanCall(s, w) && s.threads[u].ptd.Some?
    ensures Do(s, SetDone(u)) == Some(s1) && Do(s1, SchedExit(u)) == Some(s2) && Do(s2, CallJoin(w, u)) == Some(s3)
    ensures Alone(s3, w, 2).Some? && Alone(s3, w, 2).value.log == s.log + [Left(u), Joined(w, u, OK)]
  {
    s1 := Do(s, SetDone(u)).value;
    s2 := Do(s1, SchedExit(u)).value;
    s3 := Do(s2, CallJoin(w, u)).value;
    JoinTurn(s3, w, u);
  }

  /** A created thread runs once it was started, and not before. */
  lemma StartedRuns(s: State, w: Tid, t: Tid) returns (s1: State, s2: State, s3: State)
    requires CanCall(s, w) && t !in s.threads
    ensures Do(s, Create(w, t)) == Some(s1) && Do(s1, Enter(t)).None?
    ensures Do(s1, Start(w, t)) == Some(s2) && Do(s2, Enter(t)) == Some(s3)
    ensures CanCall(s3, t) && !IsCancelled(s3, t) && s3.log == s.log + [Started(t), Entered(t)]
  {
    s1 := Do(s, Create(w, t)).value;
    s2 := Do(s1, Start(w, t)).value;
    s3 := Do(s2, Enter(t)).value;
  }

  // ---- Whoever is cancelled or out of time gets out ----

  /** Why a wait must end: the thread is cancelled, or its time limit has passed. */
  datatype Reason = Cancellation | Expiry

  /** Own steps left in a wait loop with that reason. */
  function Rank(op: Op, why: Reason): (n: nat)
    ensures n <= 5
  {
    match op
    case Leave(_, _, _) => 1
    case PendCancel(_, _, _) => if why == Cancellation then 2 else 5
    case PendYield(_, _, _) => if why == Cancellation then 5 else 4
    case PendTry(_, _, _) => if why == Cancellation then 4 else 3
    case PendTime(_, _, _) => if why == Cancellation then 3 else 2
    case JoinYield(_) => if why == Cancellation then 4 else 0
    case JoinDone(_) => if why == Cancellation then 3 else 0
    case JoinCancel(_) => if why == Cancellation then 2 else 0
    case JoinExit(_) => if why == Cancellation then 1 else 0
    case _ => 0
  }

  predicate OutOfTime(op: Op, clock: nat) {
    Looping(op).Some? ==>
      Looping(op).value.kind.limit > 0 && clock - Looping(op).value.since > Looping(op).value.kind.limit
  }

  predicate MustEnd(s: State, t: Tid, why: Reason) {
    && t in s.threads && Rank(s.threads[t].op, why) > 0
    && match why
       case Cancellation => IsCancelled(s, t)
       case Expiry => OutOfTime(s.threads[t].op, s.clock)
  }

  /** Each own step brings the thread closer to the end of its wait. */
  lemma OwnStepDrops(s: State, t: Tid, why: Reason)
    requires MustEnd(s, t, why) && Do(s, Continue(t)).Some?
    ensures var r := Do(s, Continue(t)).value;
      && t in r.threads && Rank(r.threads[t].op, why) < Rank(s.threads[t].op, why)
      && if Rank(r.threads[t].op, why) == 0 then r.threads[t].op == Idle else MustEnd(r, t, why)
  {
  }

  /** Steps of others leave it where it is. */
  lemma OtherStepKeeps(s: State, step: Step, t: Tid, why: Reason)
    requires MustEnd(s, t, why) && Do(s, step).Some? && step != Continue(t)
    ensures var r := Do(s, step).value;
      MustEnd(r, t, why) && r.threads[t].op == s.threads[t].op
  {
  }

  function OwnSteps(steps: seq<Step>, t: Tid): nat {
    if steps == [] then 0 else OwnSteps(steps[..|steps| - 1], t) + One(steps[|steps| - 1] == Continue(t))
  }

  /** After the first `m` steps of the run, `t` is in no operation. */
  ghost predicate IdleAfter(s: State, steps: seq<Step>, m: nat, t: Tid)
    requires m <= |steps|
  {
    var r := Run(s, steps[..m]);
    r.Some? && t in r.value.threads && r.value.threads[t].op == Idle
  }

  lemma RunLast(s: State, steps: seq<Step>)
    requires steps != [] && Run(s, steps).Some?
    ensures var n := |steps| - 1;
      Run(s, steps[..n]).Some? && Do(Run(s, steps[..n]).value, steps[n]) == Run(s, steps)
  {
  }

  lemma {:induction false} RankOverRun(s: State, steps: seq<Step>, t: Tid, why: Reason) returns (m: nat)
    requires MustEnd(s, t, why) && Run(s, steps).Some?
    ensures m <= |steps|
    ensures || IdleAfter(s, steps, m, t)
            || (var r := Run(s, steps).value;
                MustEnd(r, t, why) && Rank(r.threads[t].op, why) + OwnSteps(steps, t) <= Rank(s.threads[t].op, why))
  {
    if steps == [] {
      m := 0;
    } else {
      var n := |steps| - 1;
      RunLast(s, steps);
      m := RankOverRun(s, steps[..n], t, why);
      assert steps[..n][..m] == steps[..m];
      if !IdleAfter(s, steps, m, t) {
        var q := Run(s, steps[..n]).value;
        if steps[n] == Continue(t) {
          OwnStepDrops(q, t, why);
        } else {
          OtherStepKeeps(q, steps[n], t, why);
        }
        m := |steps|;
        assert steps[..m] == steps;
      }
    }
  }

  /** The thread is in the loop of a join or of a cancellable pend, or about to return from a pend. */
  predicate InWait(op: Op) {
    Looping(op).Some? || op.Leave? || op.JoinDone? || op.JoinCancel? || op.JoinYield? || op.JoinExit?
  }

  /** However the others are scheduled, a cancelled thread is out of its wait after at most five steps of its own. */
  lemma CancelledReturns(s: State, steps: seq<Step>, t: Tid) returns (m: nat)
    requires IsCancelled(s, t) && InWait(s.threads[t].op) && Run(s, steps).Some? && OwnSteps(steps, t) >= 5
    ensures m <= |steps| && IdleAfter(s, steps, m, t)
  {
    m := RankOverRun(s, steps, t, Cancellation);
  }

  /** So is a thread whose time limit has passed. */
  lemma ExpiredReturns(s: State, steps: seq<Step>, t: Tid, x: SemId, limit: nat, since: nat) returns (m: nat)
    requires t in s.threads && Looping(s.threads[t].op) == Some(Wait(x, Cancellable(limit), since))
    requires limit > 0 && s.clock - since > limit && Run(s, steps).Some? && OwnSteps(steps, t) >= 5
    ensures m <= |steps| && IdleAfter(s, steps, m, t)
  {
    m := RankOverRun(s, steps, t, Expiry);
  }
}
