/** The pthread OS layer as a step relation: every shared access of its polling loops is one step, and any
    thread may take the next one. */
module PthreadOsal {
  import opened Basics

  type Tid = nat
  type SemId = nat

  /** PTE_OS_OK, PTE_OS_TIMEOUT, PTE_OS_INTERRUPTED. */
  datatype Result = OK | TIMEOUT | INTERRUPTED

  /** The two counting semaphores and the flag of `pte_thread_data_t`. */
  datatype Ptd = Ptd(start: nat, cancel: nat, done: bool)

  /** Parked threads sit in the stub, waiting for their start; Finishing is between `done = 1` and leaving
      the scheduler; Returned threads left their entry point without `pte_osThreadExit`. */
  datatype Phase = Parked | Running | Finishing | Exited | Returned

  /** `pte_osSemaphorePend`, with a time limit or not, and the cancellable one with its limit (0 for none). */
  datatype Kind = Plain(timed: bool) | Cancellable(limit: nat)

  /** Where a thread is inside an operation of this layer. */
  datatype Op =
    | Idle
    | JoinDone(target: Tid) | JoinCancel(target: Tid) | JoinYield(target: Tid) | JoinExit(target: Tid)
    | PendTry(sem: SemId, limit: nat, since: nat) | PendTime(sem: SemId, limit: nat, since: nat)
    | PendCancel(sem: SemId, limit: nat, since: nat) | PendYield(sem: SemId, limit: nat, since: nat)
    | Down(sem: SemId, timed: bool)
    | Leave(sem: SemId, result: Result, kind: Kind)
    | Post(sem: SemId, left: nat)

  /** A thread this layer did not create has no private data and cannot be cancelled. */
  datatype Thread = Thread(ptd: Option<Ptd>, phase: Phase, op: Op)

  type Threads = map<Tid, Thread>

  /** What happened. */
  datatype Event =
    | Started(t: Tid) | Entered(t: Tid) | Left(t: Tid) | Cancelled(t: Tid)
    | PassedCheck(t: Tid)
    | Joined(who: Tid, t: Tid, result: Result)
    | Posted(who: Tid, sem: SemId, count: int) | Upped(who: Tid, sem: SemId) | Took(who: Tid, sem: SemId)
    | Called(who: Tid, sem: SemId, kind: Kind) | Pended(who: Tid, sem: SemId, result: Result, kind: Kind)
    | Ticked

  /** `init` remembers what every semaphore was created with, `log` what happened, oldest first. */
  datatype State = State(threads: Threads, sems: map<SemId, nat>, init: map<SemId, nat>, clock: nat, log: seq<Event>)

  datatype Step =
    | Create(who: Tid, t: Tid) | Start(who: Tid, t: Tid) | Cancel(who: Tid, t: Tid)
    | Enter(t: Tid) | SetDone(t: Tid) | SchedExit(t: Tid) | EntryReturns(t: Tid)
    | CreateSem(who: Tid, sem: SemId, value: nat)
    | CallJoin(who: Tid, t: Tid) | CallPend(who: Tid, sem: SemId, timed: bool)
    | CallCancellablePend(who: Tid, sem: SemId, limit: nat) | CallPost(who: Tid, sem: SemId, count: int)
    | Continue(t: Tid) | DownTimesOut(t: Tid) | Tick

  /** What a step does besides changing thread states. */
  datatype Effect = Quiet | NewSem(sem: SemId, value: nat) | Happens(event: Event)

  datatype Action = Action(threads: Threads, effect: Effect)

  predicate CanCall(s: State, t: Tid) {
    t in s.threads && s.threads[t].phase == Running && s.threads[t].op == Idle
  }

  predicate HasPtd(s: State, t: Tid) { t in s.threads && s.threads[t].ptd.Some? }

  /** `ptd && ptd->cancel_sem.count > 0`. */
  predicate IsCancelled(s: State, t: Tid) { HasPtd(s, t) && s.threads[t].ptd.value.cancel > 0 }

  function SetOp(s: State, t: Tid, op: Op): Threads
    requires t in s.threads
  {
    s.threads[t := s.threads[t].(op := op)]
  }

  function SetPhase(s: State, t: Tid, phase: Phase): Threads
    requires t in s.threads
  {
    s.threads[t := s.threads[t].(phase := phase)]
  }

  function SetPtd(s: State, t: Tid, phase: Phase, ptd: Ptd): Threads
    requires t in s.threads
  {
    s.threads[t := s.threads[t].(phase := phase, ptd := Some(ptd))]
  }

  /** The action of a step, if it is enabled. */
  function Act(s: State, step: Step): Option<Action> {
    match step
    case Create(who, t) =>
      if CanCall(s, who) && t !in s.threads
      then Some(Action(s.threads[t := Thread(Some(Ptd(0, 0, false)), Parked, Idle)], Quiet)) else None
    case Start(who, t) =>
      if CanCall(s, who) && HasPtd(s, t) then
        var p := s.threads[t].ptd.value;
        Some(Action(SetPtd(s, t, s.threads[t].phase, p.(start := p.start + 1)), Happens(Started(t))))
      else None
    case Cancel(who, t) =>
      if CanCall(s, who) && HasPtd(s, t) then
        var p := s.threads[t].ptd.value;
        Some(Action(SetPtd(s, t, s.threads[t].phase, p.(cancel := p.cancel + 1)), Happens(Cancelled(t))))
      else None
    case Enter(t) =>
      if HasPtd(s, t) && s.threads[t].phase == Parked && s.threads[t].ptd.value.start > 0 then
        var p := s.threads[t].ptd.value;
        Some(Action(SetPtd(s, t, Running, p.(start := p.start - 1)), Happens(Entered(t))))
      else None
    case SetDone(t) =>
      if CanCall(s, t) && HasPtd(s, t)
      then Some(Action(SetPtd(s, t, Finishing, s.threads[t].ptd.value.(done := true)), Quiet)) else None
    case SchedExit(t) =>
      if t in s.threads && s.threads[t].phase == Finishing
      then Some(Action(SetPhase(s, t, Exited), Happens(Left(t)))) else None
    case EntryReturns(t) =>
      if CanCall(s, t) then Some(Action(SetPhase(s, t, Returned), Quiet)) else None
    case CreateSem(who, sem, value) =>
      if CanCall(s, who) && sem !in s.sems then Some(Action(s.threads, NewSem(sem, value))) else None
    case CallJoin(who, t) =>
      if CanCall(s, who) && HasPtd(s, t) then Some(Action(SetOp(s, who, JoinDone(t)), Quiet)) else None
    case CallPend(who, sem, timed) =>
      if CanCall(s, who) && sem in s.sems
      then Some(Action(SetOp(s, who, Down(sem, timed)), Happens(Called(who, sem, Plain(timed))))) else None
    case CallCancellablePend(who, sem, limit) =>
      if CanCall(s, who) && sem in s.sems
      then Some(Action(SetOp(s, who, PendTry(sem, limit, s.clock)), Happens(Called(who, sem, Cancellable(limit)))))
      else None
    case CallPost(who, sem, count) =>
      if CanCall(s, who) && sem in s.sems
      then Some(Action(SetOp(s, who, Post(sem, Positive(count))), Happens(Posted(who, sem, count)))) else None
    case Continue(t) =>
      if t in s.threads && s.threads[t].phase == Running then Proceed(s, t, s.threads[t].op) else None
    case DownTimesOut(t) =>
      if t in s.threads && s.threads[t].phase == Running && s.threads[t].op.Down? && s.threads[t].op.timed
      then Some(Action(SetOp(s, t, Leave(s.threads[t].op.sem, TIMEOUT, Plain(true))), Quiet)) else None
    case Tick => Some(Action(s.threads, Happens(Ticked)))
  }

  /** The next access of the operation `op` that thread `t` is in. */
  function Proceed(s: State, t: Tid, op: Op): Option<Action>
    requires t in s.threads
  {
    match op
    case Idle => None
    case JoinDone(u) =>
      if HasPtd(s, u) && s.threads[u].ptd.value.done then Some(Action(SetOp(s, t, JoinExit(u)), Quiet))
      else Some(Action(SetOp(s, t, JoinCancel(u)), Quiet))
    case JoinExit(u) =>
      if u in s.threads && s.threads[u].phase == Exited
      then Some(Action(SetOp(s, t, Idle), Happens(Joined(t, u, OK)))) else None
    case JoinCancel(u) =>
      if IsCancelled(s, t) then Some(Action(SetOp(s, t, Idle), Happens(Joined(t, u, INTERRUPTED))))
      else Some(Action(SetOp(s, t, JoinYield(u)), Happens(PassedCheck(t))))
    case JoinYield(u) => Some(Action(SetOp(s, t, JoinDone(u)), Quiet))
    case PendTry(sem, limit, since) =>
      if Free(s, sem) then Some(Action(SetOp(s, t, Leave(sem, OK, Cancellable(limit))), Happens(Took(t, sem))))
      else Some(Action(SetOp(s, t, PendTime(sem, limit, since)), Quiet))
    case PendTime(sem, limit, since) =>
      if limit > 0 && s.clock - since > limit
      then Some(Action(SetOp(s, t, Leave(sem, TIMEOUT, Cancellable(limit))), Quiet))
      else Some(Action(SetOp(s, t, PendCancel(sem, limit, since)), Quiet))
    case PendCancel(sem, limit, since) =>
      if IsCancelled(s, t) then Some(Action(SetOp(s, t, Leave(sem, INTERRUPTED, Cancellable(limit))), Quiet))
      else Some(Action(SetOp(s, t, PendYield(sem, limit, since)), Happens(PassedCheck(t))))
    case PendYield(sem, limit, since) => Some(Action(SetOp(s, t, PendTry(sem, limit, since)), Quiet))
    case Down(sem, timed) =>
      if Free(s, sem) then Some(Action(SetOp(s, t, Leave(sem, OK, Plain(timed))), Happens(Took(t, sem)))) else None
    case Leave(sem, result, kind) => Some(Action(SetOp(s, t, Idle), Happens(Pended(t, sem, result, kind))))
    case Post(sem, left) =>
      if left == 0 then Some(Action(SetOp(s, t, Idle), Quiet))
      else if sem in s.sems then Some(Action(SetOp(s, t, Post(sem, left - 1)), Happens(Upped(t, sem)))) else None
  }

  /** How often `for (i = 0; i < count; i++)` runs. */
  function Positive(count: int): nat { if count > 0 then count else 0 }

  predicate Free(s: State, sem: SemId) { sem in s.sems && s.sems[sem] > 0 }

  function SemsAfter(sems: map<SemId, nat>, e: Event): map<SemId, nat> {
    if e.Upped? && e.sem in sems then sems[e.sem := sems[e.sem] + 1]
    else if e.Took? && e.sem in sems && sems[e.sem] > 0 then sems[e.sem := sems[e.sem] - 1]
    else sems
  }

  function Apply(s: State, a: Action): State {
    match a.effect
    case Quiet => s.(threads := a.threads)
    case NewSem(x, v) => s.(threads := a.threads, sems := s.sems[x := v], init := s.init[x := v])
    case Happens(e) =>
      State(a.threads, SemsAfter(s.sems, e), s.init, s.clock + if e.Ticked? then 1 else 0, s.log + [e])
  }

  /** The initialising thread, with private data, and threads this layer did not create, without. */
  function Boot(foreign: set<Tid>): State {
    State(map t | t in foreign + {0} :: Thread(if t == 0 then Some(Ptd(0, 0, false)) else None, Running, Idle),
          map[], map[], 0, [])
  }

  /** The state after a run, if every step of it was enabled. */
  function Run(s: State, steps: seq<Step>): Option<State> {
    if steps == [] then Some(s)
    else
      var r := Run(s, steps[..|steps| - 1]);
      if r.None? then None
      else
        var a := Act(r.value, steps[|steps| - 1]);
        if a.None? then None else Some(Apply(r.value, a.value))
  }

  /** `r` is reached from a boot state by some run. */
  ghost predicate Reached(foreign: set<Tid>, steps: seq<Step>, r: State) {
    Run(Boot(foreign), steps) == Some(r)
  }

  // ---- Counting events ----

  function One(b: bool): nat { if b then 1 else 0 }

  function Count(log: seq<Event>, p: Event -> bool): nat {
    if log == [] then 0 else Count(log[..|log| - 1], p) + One(p(log[|log| - 1]))
  }

  lemma CountNote(log: seq<Event>, e: Event, p: Event -> bool)
    ensures Count(log + [e], p) == Count(log, p) + One(p(e))
  {
    assert (log + [e])[..|log|] == log;
  }

  lemma {:induction false} CountPositive(log: seq<Event>, e: Event, p: Event -> bool)
    requires p(e) && e in log
    ensures Count(log, p) > 0
  {
    if log[|log| - 1] != e {
      CountPositive(log[..|log| - 1], e, p);
    }
  }

  lemma {:induction false} CountWitness(log: seq<Event>, p: Event -> bool) returns (e: Event)
    requires Count(log, p) > 0
    ensures p(e) && e in log
  {
    if p(log[|log| - 1]) {
      e := log[|log| - 1];
    } else {
      e := CountWitness(log[..|log| - 1], p);
    }
  }

  function Ups(log: seq<Event>, sem: SemId): nat { Count(log, (e: Event) => e.Upped? && e.sem == sem) }
  function Takes(log: seq<Event>, sem: SemId): nat { Count(log, (e: Event) => e.Took? && e.sem == sem) }

  // ---- Semaphores ----

  /** Every count is its initial value plus the ups minus the takes. */
  ghost predicate Conserved(s: State) {
    && s.sems.Keys == s.init.Keys
    && (forall x :: x in s.sems ==> s.sems[x] + Takes(s.log, x) == s.init[x] + Ups(s.log, x))
    && (forall x :: x !in s.sems ==> Takes(s.log, x) == 0 && Ups(s.log, x) == 0)
  }

  lemma ConservedNote(log: seq<Event>, e: Event, x: SemId)
    ensures Takes(log + [e], x) == Takes(log, x) + One(e.Took? && e.sem == x)
    ensures Ups(log + [e], x) == Ups(log, x) + One(e.Upped? && e.sem == x)
  {
    CountNote(log, e, (e: Event) => e.Took? && e.sem == x);
    CountNote(log, e, (e: Event) => e.Upped? && e.sem == x);
  }

  /** Steps only up existing semaphores and only take what is there. */
  lemma EffectSound(s: State, step: Step)
    requires Act(s, step).Some?
    ensures match Act(s, step).value.effect
      case NewSem(x, _) => x !in s.sems
      case Happens(e) => (e.Upped? ==> e.sem in s.sems) && (e.Took? ==> Free(s, e.sem))
      case _ => true
  {
  }

  lemma StepConserves(s: State, step: Step)
    requires Conserved(s) && Act(s, step).Some?
    ensures Conserved(Apply(s, Act(s, step).value))
  {
    EffectSound(s, step);
    ApplyConserves(s, Act(s, step).value);
  }

  lemma ApplyConserves(s: State, a: Action)
    requires Conserved(s)
    requires match a.effect
      case NewSem(x, _) => x !in s.sems
      case Happens(e) => (e.Upped? ==> e.sem in s.sems) && (e.Took? ==> Free(s, e.sem))
      case _ => true
    ensures Conserved(Apply(s, a))
  {
    if a.effect.Happens? {
      var e := a.effect.event;
      forall x ensures Takes(s.log + [e], x) == Takes(s.log, x) + One(e.Took? && e.sem == x)
          && Ups(s.log + [e], x) == Ups(s.log, x) + One(e.Upped? && e.sem == x) {
        ConservedNote(s.log, e, x);
      }
    }
  }

  predicate IsOkReturn(e: Event, t: Tid, sem: SemId) { e.Pended? && e.who == t && e.sem == sem && e.result == OK }

  function TakesBy(log: seq<Event>, t: Tid, sem: SemId): nat { Count(log, (e: Event) => e == Took(t, sem)) }
  function OkReturns(log: seq<Event>, t: Tid, sem: SemId): nat { Count(log, (e: Event) => IsOkReturn(e, t, sem)) }

  /** Thread `t` took a unit of `sem` and has not returned yet. */
  predicate Holding(threads: Threads, t: Tid, sem: SemId) {
    t in threads && threads[t].op.Leave? && threads[t].op.sem == sem && threads[t].op.result == OK
  }

  /** A pend took a unit exactly when it returned, or is about to return, PTE_OS_OK. */
  ghost predicate TakesMatch(s: State) {
    forall t, x :: TakesBy(s.log, t, x) == OkReturns(s.log, t, x) + One(Holding(s.threads, t, x))
  }

  ghost predicate HoldingMoves(s: State, a: Action, t: Tid, x: SemId) {
    One(Holding(a.threads, t, x)) + One(a.effect.Happens? && IsOkReturn(a.effect.event, t, x))
    == One(Holding(s.threads, t, x)) + One(a.effect == Happens(Took(t, x)))
  }

  lemma HoldingChange(s: State, step: Step, t: Tid, x: SemId)
    requires Act(s, step).Some?
    ensures HoldingMoves(s, Act(s, step).value, t, x)
  {
  }

  lemma StepTakesMatch(s: State, step: Step)
    requires TakesMatch(s) && Act(s, step).Some?
    ensures TakesMatch(Apply(s, Act(s, step).value))
  {
    var a := Act(s, step).value;
    var r := Apply(s, a);
    forall t, x ensures TakesBy(r.log, t, x) == OkReturns(r.log, t, x) + One(Holding(r.threads, t, x)) {
      HoldingChange(s, step, t, x);
      if a.effect.Happens? {
        CountNote(s.log, a.effect.event, (e: Event) => e == Took(t, x));
        CountNote(s.log, a.effect.event, (e: Event) => IsOkReturn(e, t, x));
      }
    }
  }

  function UpsBy(log: seq<Event>, t: Tid, sem: SemId): nat { Count(log, (e: Event) => e == Upped(t, sem)) }

  /** The units thread `t` was asked to post on `sem`. */
  function PostedBy(log: seq<Event>, t: Tid, sem: SemId): nat {
    if log == [] then 0
    else PostedBy(log[..|log| - 1], t, sem) + Posting(log[|log| - 1], t, sem)
  }

  function Posting(e: Event, t: Tid, sem: SemId): nat {
    if e.Posted? && e.who == t && e.sem == sem && e.count > 0 then e.count else 0
  }

  /** The units of a post that are still to come. */
  function ToPost(threads: Threads, t: Tid, sem: SemId): nat {
    if t in threads && threads[t].op.Post? && threads[t].op.sem == sem then threads[t].op.left else 0
  }

  /** A post of `count` ups its semaphore max(count, 0) times, however it is interleaved. */
  ghost predicate PostsMatch(s: State) {
    forall t, x :: PostedBy(s.log, t, x) == UpsBy(s.log, t, x) + ToPost(s.threads, t, x)
  }

  ghost predicate ToPostMoves(s: State, a: Action, t: Tid, x: SemId) {
    ToPost(a.threads, t, x) + One(a.effect == Happens(Upped(t, x)))
    == ToPost(s.threads, t, x) + if a.effect.Happens? then Posting(a.effect.event, t, x) else 0
  }

  lemma ToPostChange(s: State, step: Step, t: Tid, x: SemId)
    requires Act(s, step).Some?
    ensures ToPostMoves(s, Act(s, step).value, t, x)
  {
  }

  lemma StepPostsMatch(s: State, step: Step)
    requires PostsMatch(s) && Act(s, step).Some?
    ensures PostsMatch(Apply(s, Act(s, step).value))
  {
    var a := Act(s, step).value;
    var r := Apply(s, a);
    forall t, x ensures PostedBy(r.log, t, x) == UpsBy(r.log, t, x) + ToPost(r.threads, t, x) {
      ToPostChange(s, step, t, x);
      if a.effect.Happens? {
        assert (s.log + [a.effect.event])[..|s.log|] == s.log;
        CountNote(s.log, a.effect.event, (e: Event) => e == Upped(t, x));
      }
    }
  }

  // ---- All threads together ----

  /** The pends on `sem` that returned PTE_OS_OK. */
  function OkPends(log: seq<Event>, sem: SemId): nat {
    Count(log, (e: Event) => e.Pended? && e.sem == sem && e.result == OK)
  }

  /** The units asked for by all posts on `sem`. */
  function PostedUnits(log: seq<Event>, sem: SemId): nat {
    if log == [] then 0
    else PostedUnits(log[..|log| - 1], sem) + UnitsOf(log[|log| - 1], sem)
  }

  function UnitsOf(e: Event, sem: SemId): nat {
    if e.Posted? && e.sem == sem && e.count > 0 then e.count else 0
  }

  /** The threads that took a unit of `sem` and have not returned yet. */
  ghost function Leaving(threads: Threads, sem: SemId): set<Tid> { set t | t in threads && Holding(threads, t, sem) }

  /** The units still to come, numbered for each thread that posts. */
  ghost function Unposted(threads: Threads, sem: SemId): set<(Tid, nat)> {
    set t, i: nat | t in threads && 0 <= i < ToPost(threads, t, sem) :: (t, i)
  }

  /** Units taken are units returned for, or about to be; units posted are units upped, or about to be. */
  ghost predicate UnitsMatch(s: State) { forall x :: TakenMatch(s, x) && PostedMatch(s, x) }

  ghost predicate TakenMatch(s: State, x: SemId) {
    Takes(s.log, x) == OkPends(s.log, x) + |Leaving(s.threads, x)|
  }

  ghost predicate PostedMatch(s: State, x: SemId) {
    PostedUnits(s.log, x) == Ups(s.log, x) + |Unposted(s.threads, x)|
  }

  lemma UnitsNote(log: seq<Event>, e: Event, x: SemId)
    ensures OkPends(log + [e], x) == OkPends(log, x) + One(e.Pended? && e.sem == x && e.result == OK)
    ensures PostedUnits(log + [e], x) == PostedUnits(log, x) + UnitsOf(e, x)
  {
    CountNote(log, e, (e: Event) => e.Pended? && e.sem == x && e.result == OK);
    assert (log + [e])[..|log|] == log;
  }

  lemma SizesDiffer(b: set<Tid>, c: set<Tid>, u: Tid)
    requires forall t :: t != u ==> (t in b <==> t in c)
    ensures |b| - One(u in b) == |c| - One(u in c)
  {
    assert b - {u} == c - {u};
    assert u in b ==> b == b - {u} + {u};
    assert u in c ==> c == c - {u} + {u};
  }

  /** The thread an event of a semaphore is about. */
  function Actor(a: Action): Tid {
    if !a.effect.Happens? then 0
    else match a.effect.event
      case Took(who, _) => who
      case Pended(who, _, _, _) => who
      case Upped(who, _) => who
      case Posted(who, _, _) => who
      case _ => 0
  }

  predicate TakesFrom(a: Action, x: SemId) { a.effect.Happens? && a.effect.event.Took? && a.effect.event.sem == x }

  predicate OkOn(a: Action, x: SemId) {
    a.effect.Happens? && a.effect.event.Pended? && a.effect.event.sem == x && a.effect.event.result == OK
  }

  predicate UpsOn(a: Action, x: SemId) { a.effect.Happens? && a.effect.event.Upped? && a.effect.event.sem == x }

  ghost predicate LeavingMoves(s: State, a: Action, x: SemId) {
    |Leaving(a.threads, x)| + One(OkOn(a, x)) == |Leaving(s.threads, x)| + One(TakesFrom(a, x))
  }

  /** One thread joins or leaves those on their way out. */
  lemma LeavingChange(s: State, a: Action, x: SemId)
    requires forall t :: HoldingMoves(s, a, t, x)
    ensures LeavingMoves(s, a, x)
  {
    var u := Actor(a);
    forall t ensures t != u ==> (t in Leaving(s.threads, x) <==> t in Leaving(a.threads, x)) {
      assert HoldingMoves(s, a, t, x);
    }
    SizesDiffer(Leaving(s.threads, x), Leaving(a.threads, x), u);
    assert HoldingMoves(s, a, u, x);
  }

  lemma {:induction false} RangeSize(t: Tid, n: nat) returns (r: set<(Tid, nat)>)
    ensures r == (set i: nat | 0 <= i < n :: (t, i)) && |r| == n
  {
    if n == 0 {
      r := {};
    } else {
      var q := RangeSize(t, n - 1);
      r := q + {(t, n - 1)};
      assert (t, n - 1) !in q;
    }
  }

  /** Only the units of thread `u` change. */
  lemma UnpostedSize(before: Threads, after: Threads, u: Tid, x: SemId)
    requires forall t :: t != u ==> ToPost(before, t, x) == ToPost(after, t, x)
    ensures |Unposted(after, x)| - ToPost(after, u, x) == |Unposted(before, x)| - ToPost(before, u, x)
  {
    var b, c := Unposted(before, x), Unposted(after, x);
    var own := RangeSize(u, ToPost(before, u, x));
    var own' := RangeSize(u, ToPost(after, u, x));
    assert b - own == c - own' by {
      forall p ensures p in b - own <==> p in c - own' {
        assert p.0 != u ==> ToPost(before, p.0, x) == ToPost(after, p.0, x);
      }
    }
    assert own <= b && own' <= c;
    assert |b| == |b - own| + |own| && |c| == |c - own'| + |own'|;
  }

  ghost predicate UnpostedMoves(s: State, a: Action, x: SemId) {
    |Unposted(a.threads, x)| + One(UpsOn(a, x))
    == |Unposted(s.threads, x)| + if a.effect.Happens? then UnitsOf(a.effect.event, x) else 0
  }

  lemma UnpostedChange(s: State, a: Action, x: SemId)
    requires forall t :: ToPostMoves(s, a, t, x)
    ensures UnpostedMoves(s, a, x)
  {
    var u := Actor(a);
    forall t ensures t != u ==> ToPost(s.threads, t, x) == ToPost(a.threads, t, x) {
      assert ToPostMoves(s, a, t, x);
    }
    assert ToPostMoves(s, a, u, x);
    UnpostedSize(s.threads, a.threads, u, x);
  }

  lemma ApplyTaken(s: State, a: Action, x: SemId)
    requires TakenMatch(s, x) && LeavingMoves(s, a, x)
    ensures TakenMatch(Apply(s, a), x)
  {
    if a.effect.Happens? {
      ConservedNote(s.log, a.effect.event, x);
      UnitsNote(s.log, a.effect.event, x);
    }
  }

  lemma ApplyPosted(s: State, a: Action, x: SemId)
    requires PostedMatch(s, x) && UnpostedMoves(s, a, x)
    ensures PostedMatch(Apply(s, a), x)
  {
    if a.effect.Happens? {
      ConservedNote(s.log, a.effect.event, x);
      UnitsNote(s.log, a.effect.event, x);
    }
  }

  lemma StepMoves(s: State, step: Step, x: SemId)
    requires Act(s, step).Some?
    ensures LeavingMoves(s, Act(s, step).value, x) && UnpostedMoves(s, Act(s, step).value, x)
  {
    var a := Act(s, step).value;
    forall t ensures HoldingMoves(s, a, t, x) && ToPostMoves(s, a, t, x) {
      HoldingChange(s, step, t, x);
      ToPostChange(s, step, t, x);
    }
    LeavingChange(s, a, x);
    UnpostedChange(s, a, x);
  }

  lemma StepUnitsMatch(s: State, step: Step)
    requires UnitsMatch(s) && Act(s, step).Some?
    ensures UnitsMatch(Apply(s, Act(s, step).value))
  {
    var a := Act(s, step).value;
    forall x ensures TakenMatch(Apply(s, a), x) && PostedMatch(Apply(s, a), x) {
      StepMoves(s, step, x);
      ApplyTaken(s, a, x);
      ApplyPosted(s, a, x);
    }
  }

  // ---- Threads ----

  function Starts(log: seq<Event>, t: Tid): nat { Count(log, (e: Event) => e == Started(t)) }
  function Entries(log: seq<Event>, t: Tid): nat { Count(log, (e: Event) => e == Entered(t)) }
  function Cancels(log: seq<Event>, t: Tid): nat { Count(log, (e: Event) => e == Cancelled(t)) }

  function StartsLeft(threads: Threads, t: Tid): nat {
    if t in threads && threads[t].ptd.Some? then threads[t].ptd.value.start else 0
  }

  function CancelCount(threads: Threads, t: Tid): nat {
    if t in threads && threads[t].ptd.Some? then threads[t].ptd.value.cancel else 0
  }

  predicate NotEntered(threads: Threads, t: Tid) { t !in threads || threads[t].phase == Parked }

  /** Starts are used up by entries; an entry happens once; cancellations stay counted. */
  ghost predicate Counted(s: State) { forall t :: CountedAt(s, t) }

  ghost predicate CountedAt(s: State, t: Tid) {
    && Starts(s.log, t) == StartsLeft(s.threads, t) + Entries(s.log, t)
    && Entries(s.log, t) <= 1
    && (NotEntered(s.threads, t) ==> Entries(s.log, t) == 0)
    && Cancels(s.log, t) == CancelCount(s.threads, t)
  }

  ghost predicate StartsMove(s: State, a: Action, t: Tid) {
    StartsLeft(a.threads, t) + One(a.effect == Happens(Entered(t)))
    == StartsLeft(s.threads, t) + One(a.effect == Happens(Started(t)))
  }

  ghost predicate EntryMoves(s: State, a: Action, t: Tid) {
    && (a.effect == Happens(Entered(t)) ==> NotEntered(s.threads, t) && StartsLeft(s.threads, t) > 0)
    && (NotEntered(a.threads, t) ==> NotEntered(s.threads, t) && a.effect != Happens(Entered(t)))
  }

  lemma StartChange(s: State, step: Step, t: Tid)
    requires Act(s, step).Some?
    ensures StartsMove(s, Act(s, step).value, t)
  {
  }

  lemma EntryChange(s: State, step: Step, t: Tid)
    requires Act(s, step).Some?
    ensures EntryMoves(s, Act(s, step).value, t)
  {
  }

  ghost predicate CancelsMove(s: State, a: Action, t: Tid) {
    CancelCount(a.threads, t) == CancelCount(s.threads, t) + One(a.effect == Happens(Cancelled(t)))
  }

  lemma CancelChange(s: State, step: Step, t: Tid)
    requires Act(s, step).Some?
    ensures CancelsMove(s, Act(s, step).value, t)
  {
  }

  lemma CountedNote(log: seq<Event>, e: Event, t: Tid)
    ensures Starts(log + [e], t) == Starts(log, t) + One(e == Started(t))
    ensures Entries(log + [e], t) == Entries(log, t) + One(e == Entered(t))
    ensures Cancels(log + [e], t) == Cancels(log, t) + One(e == Cancelled(t))
  {
    CountNote(log, e, (e: Event) => e == Started(t));
    CountNote(log, e, (e: Event) => e == Entered(t));
    CountNote(log, e, (e: Event) => e == Cancelled(t));
  }

  lemma ApplyCounted(s: State, a: Action, t: Tid)
    requires CountedAt(s, t) && StartsMove(s, a, t) && EntryMoves(s, a, t) && CancelsMove(s, a, t)
    ensures CountedAt(Apply(s, a), t)
  {
    if a.effect.Happens? {
      CountedNote(s.log, a.effect.event, t);
    }
  }

  lemma StepCounted(s: State, step: Step)
    requires Counted(s) && Act(s, step).Some?
    ensures Counted(Apply(s, Act(s, step).value))
  {
    forall t ensures CountedAt(Apply(s, Act(s, step).value), t) {
      StartChange(s, step, t);
      EntryChange(s, step, t);
      CancelChange(s, step, t);
      ApplyCounted(s, Act(s, step).value, t);
    }
  }

  // ---- Calls and returns ----

  /** The time: the ticks so far. */
  function Ticks(log: seq<Event>): nat { Count(log, (e: Event) => e.Ticked?) }

  /** A call of a pend: on what, how, and when. */
  datatype Wait = Wait(sem: SemId, kind: Kind, since: nat)

  /** The last call of a pend by thread `t`. */
  function LastCall(log: seq<Event>, t: Tid): Option<Wait> {
    if log == [] then None
    else
      var n := |log| - 1;
      if log[n].Called? && log[n].who == t then Some(Wait(log[n].sem, log[n].kind, Ticks(log[..n])))
      else LastCall(log[..n], t)
  }

  lemma LastCallNote(log: seq<Event>, e: Event, t: Tid)
    ensures LastCall(log + [e], t)
      == if e.Called? && e.who == t then Some(Wait(e.sem, e.kind, Ticks(log))) else LastCall(log, t)
    ensures Ticks(log + [e]) == Ticks(log) + One(e.Ticked?)
  {
    assert (log + [e])[..|log|] == log;
    CountNote(log, e, (e: Event) => e.Ticked?);
  }

  /** A pend that returns as `result` was called so, and has reason to: a time-out needs a time limit that has passed
      since the call, an interruption needs the thread to have been cancelled. */
  predicate Justified(log: seq<Event>, t: Tid, sem: SemId, result: Result, kind: Kind) {
    var c := LastCall(log, t);
    && c.Some? && c.value.sem == sem && c.value.kind == kind
    && (result == TIMEOUT ==>
          match kind
          case Plain(timed) => timed
          case Cancellable(limit) => limit > 0 && Ticks(log) - c.value.since > limit)
    && (result == INTERRUPTED ==> kind.Cancellable? && Cancelled(t) in log)
  }

  lemma JustifiedNote(log: seq<Event>, e: Event, t: Tid, sem: SemId, result: Result, kind: Kind)
    requires Justified(log, t, sem, result, kind) && !(e.Called? && e.who == t)
    ensures Justified(log + [e], t, sem, result, kind)
  {
    LastCallNote(log, e, t);
  }

  /** The call a thread in the loop of a cancellable pend is in. */
  function Looping(op: Op): Option<Wait> {
    match op
    case PendTry(sem, limit, since) => Some(Wait(sem, Cancellable(limit), since))
    case PendTime(sem, limit, since) => Some(Wait(sem, Cancellable(limit), since))
    case PendCancel(sem, limit, since) => Some(Wait(sem, Cancellable(limit), since))
    case PendYield(sem, limit, since) => Some(Wait(sem, Cancellable(limit), since))
    case _ => None
  }

  /** An operation is the one of the last call. */
  ghost predicate FromCall(log: seq<Event>, t: Tid, op: Op) {
    && (Looping(op).Some? ==> LastCall(log, t) == Looping(op))
    && (op.Down? ==> LastCall(log, t).Some? && LastCall(log, t).value.sem == op.sem
                     && LastCall(log, t).value.kind == Plain(op.timed))
    && (op.Leave? ==> Justified(log, t, op.sem, op.result, op.kind))
  }

  function OpOf(threads: Threads, t: Tid): Op { if t in threads then threads[t].op else Idle }

  predicate CallsPend(a: Action, t: Tid) { a.effect.Happens? && a.effect.event.Called? && a.effect.event.who == t }

  /** How a thread gets from `op` to leaving a pend as `next`. */
  predicate LeavesBy(s: State, t: Tid, op: Op, next: Op)
    requires next.Leave?
  {
    match next.result
    case OK =>
      || (op.PendTry? && next.sem == op.sem && next.kind == Cancellable(op.limit))
      || (op.Down? && next.sem == op.sem && next.kind == Plain(op.timed))
    case TIMEOUT =>
      || (op.PendTime? && next.sem == op.sem && next.kind == Cancellable(op.limit)
          && op.limit > 0 && s.clock - op.since > op.limit)
      || (op.Down? && op.timed && next.sem == op.sem && next.kind == Plain(op.timed))
    case INTERRUPTED =>
      op.PendCancel? && next.sem == op.sem && next.kind == Cancellable(op.limit) && CancelCount(s.threads, t) > 0
  }

  ghost predicate OpMoves(s: State, a: Action, t: Tid) {
    var op, next := OpOf(s.threads, t), OpOf(a.threads, t);
    if CallsPend(a, t) then
      match a.effect.event.kind
      case Plain(timed) => next == Down(a.effect.event.sem, timed)
      case Cancellable(limit) => next == PendTry(a.effect.event.sem, limit, s.clock)
    else
      && (Looping(next).Some? ==> Looping(next) == Looping(op))
      && (next.Down? ==> next == op)
      && (next.Leave? ==> next == op || LeavesBy(s, t, op, next))
  }

  lemma OpChange(s: State, step: Step, t: Tid)
    requires Act(s, step).Some?
    ensures OpMoves(s, Act(s, step).value, t)
  {
  }

  /** The clock is the time, and every thread in a pend is in the one it called last. */
  ghost predicate Timed(s: State) { s.clock == Ticks(s.log) && forall t :: FromCall(s.log, t, OpOf(s.threads, t)) }

  lemma CancelledInLog(s: State, t: Tid)
    requires CountedAt(s, t)
    ensures CancelCount(s.threads, t) > 0 <==> Cancelled(t) in s.log
  {
    if CancelCount(s.threads, t) > 0 {
      var e := CountWitness(s.log, (e: Event) => e == Cancelled(t));
    }
    if Cancelled(t) in s.log {
      CountPositive(s.log, Cancelled(t), (e: Event) => e == Cancelled(t));
    }
  }

  lemma FromCallNote(log: seq<Event>, e: Event, t: Tid, op: Op)
    requires FromCall(log, t, op) && !(e.Called? && e.who == t)
    ensures FromCall(log + [e], t, op)
  {
    LastCallNote(log, e, t);
    if op.Leave? {
      JustifiedNote(log, e, t, op.sem, op.result, op.kind);
    }
  }

  /** The step as such is fine before its event is logged. */
  lemma FromCallMoves(s: State, a: Action, t: Tid)
    requires s.clock == Ticks(s.log) && FromCall(s.log, t, OpOf(s.threads, t)) && CountedAt(s, t)
    requires OpMoves(s, a, t) && !CallsPend(a, t)
    ensures FromCall(s.log, t, OpOf(a.threads, t))
  {
    CancelledInLog(s, t);
  }

  lemma ApplyTimed(s: State, a: Action, t: Tid)
    requires s.clock == Ticks(s.log) && FromCall(s.log, t, OpOf(s.threads, t)) && CountedAt(s, t) && OpMoves(s, a, t)
    ensures FromCall(Apply(s, a).log, t, OpOf(a.threads, t))
  {
    if CallsPend(a, t) {
      LastCallNote(s.log, a.effect.event, t);
    } else {
      FromCallMoves(s, a, t);
      if a.effect.Happens? {
        FromCallNote(s.log, a.effect.event, t, OpOf(a.threads, t));
      }
    }
  }

  lemma StepTimed(s: State, step: Step)
    requires Timed(s) && Counted(s) && Act(s, step).Some?
    ensures Timed(Apply(s, Act(s, step).value))
  {
    var a := Act(s, step).value;
    if a.effect.Happens? {
      LastCallNote(s.log, a.effect.event, 0);
    }
    forall t ensures FromCall(Apply(s, a).log, t, OpOf(Apply(s, a).threads, t)) {
      OpChange(s, step, t);
      assert CountedAt(s, t);
      ApplyTimed(s, a, t);
    }
  }

  /** What must come before an event in the log. */
  ghost predicate InOrder(log: seq<Event>, i: nat)
    requires i < |log|
  {
    match log[i]
    case Entered(t) => Started(t) in log[..i]
    case Joined(who, t, OK) => Left(t) in log[..i]
    case Joined(who, t, INTERRUPTED) => Cancelled(who) in log[..i]
    case Joined(who, t, TIMEOUT) => false
    case PassedCheck(t) => Cancelled(t) !in log[..i]
    case Pended(who, x, result, kind) => Justified(log[..i], who, x, result, kind)
    case _ => true
  }

  ghost predicate Ordered(s: State) {
    && (forall i :: 0 <= i < |s.log| ==> InOrder(s.log, i))
    && (forall t :: t in s.threads && s.threads[t].phase == Exited ==> Left(t) in s.log)
  }

  /** What a step must have found to make its event. */
  ghost predicate Caused(s: State, e: Event) {
    match e
    case Entered(t) => StartsLeft(s.threads, t) > 0
    case Joined(who, t, OK) => t in s.threads && s.threads[t].phase == Exited
    case Joined(who, t, INTERRUPTED) => CancelCount(s.threads, who) > 0
    case Joined(who, t, TIMEOUT) => false
    case PassedCheck(t) => CancelCount(s.threads, t) == 0
    case Pended(who, x, result, kind) => OpOf(s.threads, who) == Leave(x, result, kind)
    case _ => true
  }

  lemma EventCause(s: State, step: Step)
    requires Act(s, step).Some? && Act(s, step).value.effect.Happens?
    ensures Caused(s, Act(s, step).value.effect.event)
  {
  }

  lemma PhaseChange(s: State, step: Step, t: Tid)
    requires Act(s, step).Some?
    ensures var a := Act(s, step).value;
      t in a.threads && a.threads[t].phase == Exited ==>
        (t in s.threads && s.threads[t].phase == Exited) || a.effect == Happens(Left(t))
  {
  }

  lemma EventInOrder(s: State, e: Event)
    requires Ordered(s) && Counted(s) && Timed(s) && Caused(s, e)
    ensures InOrder(s.log + [e], |s.log|)
  {
    assert (s.log + [e])[..|s.log|] == s.log;
    match e {
      case Entered(t) =>
        assert CountedAt(s, t);
        var f := CountWitness(s.log, (e: Event) => e == Started(t));
      case PassedCheck(t) =>
        assert CountedAt(s, t);
        CancelledInLog(s, t);
      case Joined(who, t, result) =>
        assert CountedAt(s, who);
        CancelledInLog(s, who);
      case Pended(who, x, result, kind) =>
        assert FromCall(s.log, who, OpOf(s.threads, who));
      case _ =>
    }
  }

  lemma StepOrdered(s: State, step: Step)
    requires Ordered(s) && Counted(s) && Timed(s) && Act(s, step).Some?
    ensures Ordered(Apply(s, Act(s, step).value))
  {
    var a := Act(s, step).value;
    var r := Apply(s, a);
    if a.effect.Happens? {
      EventCause(s, step);
      EventInOrder(s, a.effect.event);
      forall i | 0 <= i < |s.log| ensures InOrder(r.log, i) {
        assert InOrder(s.log, i);
        assert r.log[..i] == s.log[..i];
      }
    }
    forall t ensures t in r.threads && r.threads[t].phase == Exited ==> Left(t) in r.log {
      PhaseChange(s, step, t);
    }
  }

  // ---- Every interleaving ----

  ghost predicate Invariant(s: State) {
    Conserved(s) && TakesMatch(s) && PostsMatch(s) && UnitsMatch(s) && Counted(s) && Timed(s) && Ordered(s)
  }

  lemma {:induction false} RunInvariant(s: State, steps: seq<Step>)
    requires Invariant(s) && Run(s, steps).Some?
    ensures Invariant(Run(s, steps).value)
  {
    if steps != [] {
      var n := |steps| - 1;
      RunInvariant(s, steps[..n]);
      var r := Run(s, steps[..n]).value;
      StepConserves(r, steps[n]);
      StepTakesMatch(r, steps[n]);
      StepPostsMatch(r, steps[n]);
      StepUnitsMatch(r, steps[n]);
      StepCounted(r, steps[n]);
      StepTimed(r, steps[n]);
      StepOrdered(r, steps[n]);
    }
  }

  lemma BootUnits(foreign: set<Tid>)
    ensures UnitsMatch(Boot(foreign))
  {
    forall x ensures TakenMatch(Boot(foreign), x) && PostedMatch(Boot(foreign), x) {
      assert Leaving(Boot(foreign).threads, x) == {} && Unposted(Boot(foreign).threads, x) == {};
    }
  }

  lemma ReachedInvariant(foreign: set<Tid>, steps: seq<Step>, r: State)
    requires Reached(foreign, steps, r)
    ensures Invariant(r)
  {
    BootUnits(foreign);
    RunInvariant(Boot(foreign), steps);
  }

  /** A semaphore's count is its initial value, plus the units all posts asked for except those still to come,
      minus the pends that returned PTE_OS_OK and those that took a unit and are about to. */
  lemma SemaphoresConserved(foreign: set<Tid>, steps: seq<Step>, r: State, x: SemId)
    requires Reached(foreign, steps, r) && x in r.sems
    ensures x in r.init
    ensures r.sems[x] == r.init[x] + PostedUnits(r.log, x) - |Unposted(r.threads, x)|
                         - OkPends(r.log, x) - |Leaving(r.threads, x)|
  {
    ReachedInvariant(foreign, steps, r);
    assert TakenMatch(r, x) && PostedMatch(r, x);
  }

  /** Each thread took exactly the units its pends returned PTE_OS_OK for, and the one it is leaving with, so a pend
      that timed out or was interrupted took none; and it upped what its posts asked for, but what is to come. */
  lemma ThreadConserved(foreign: set<Tid>, steps: seq<Step>, r: State, t: Tid, x: SemId)
    requires Reached(foreign, steps, r)
    ensures TakesBy(r.log, t, x) == OkReturns(r.log, t, x) + One(Holding(r.threads, t, x))
    ensures UpsBy(r.log, t, x) == PostedBy(r.log, t, x) - ToPost(r.threads, t, x)
  {
    ReachedInvariant(foreign, steps, r);
  }

  /** An entry point runs at most once, and only after a start of its thread. */
  lemma EntryOnce(foreign: set<Tid>, steps: seq<Step>, r: State, t: Tid)
    requires Reached(foreign, steps, r)
    ensures Entries(r.log, t) <= 1 && Entries(r.log, t) <= Starts(r.log, t)
    ensures forall i :: 0 <= i < |r.log| && r.log[i] == Entered(t) ==> Started(t) in r.log[..i]
  {
    ReachedInvariant(foreign, steps, r);
    assert CountedAt(r, t);
    forall i | 0 <= i < |r.log| && r.log[i] == Entered(t) ensures Started(t) in r.log[..i] {
      assert InOrder(r.log, i);
    }
  }

  /** Waiting for a thread's end returns PTE_OS_OK only after that thread left the scheduler. */
  lemma JoinAfterExit(foreign: set<Tid>, steps: seq<Step>, r: State, who: Tid, t: Tid, i: nat)
    requires Reached(foreign, steps, r) && i < |r.log| && r.log[i] == Joined(who, t, OK)
    ensures Left(t) in r.log[..i]
  {
    ReachedInvariant(foreign, steps, r);
    assert InOrder(r.log, i);
  }

  /** What `pte_osThreadCheckCancel` reports is whether the thread was ever cancelled. */
  lemma CheckCancelIff(foreign: set<Tid>, steps: seq<Step>, r: State, t: Tid)
    requires Reached(foreign, steps, r)
    ensures IsCancelled(r, t) <==> Cancelled(t) in r.log
  {
    ReachedInvariant(foreign, steps, r);
    assert CountedAt(r, t);
    CancelledInLog(r, t);
  }

  /** Cancellation is permanent: no wait loop of a cancelled thread passes its check into another yield. */
  lemma NoYieldAfterCancel(foreign: set<Tid>, steps: seq<Step>, r: State, t: Tid, i: nat, j: nat)
    requires Reached(foreign, steps, r) && i < j < |r.log| && r.log[i] == Cancelled(t)
    ensures r.log[j] != PassedCheck(t)
  {
    ReachedInvariant(foreign, steps, r);
    assert InOrder(r.log, j);
    assert r.log[..j][i] == Cancelled(t);
  }

  /** Only a thread that was cancelled is interrupted, in a join or a cancellable pend. */
  lemma InterruptedOnlyCancelled(foreign: set<Tid>, steps: seq<Step>, r: State, who: Tid, i: nat)
    requires Reached(foreign, steps, r) && i < |r.log|
    requires (r.log[i].Joined? || r.log[i].Pended?) && r.log[i].who == who && r.log[i].result == INTERRUPTED
    ensures Cancelled(who) in r.log[..i] && (r.log[i].Pended? ==> r.log[i].kind.Cancellable?)
  {
    ReachedInvariant(foreign, steps, r);
    assert InOrder(r.log, i);
  }

  lemma {:induction false} LastCallAt(log: seq<Event>, t: Tid) returns (j: nat)
    requires LastCall(log, t).Some?
    ensures j < |log| && log[j] == Called(t, LastCall(log, t).value.sem, LastCall(log, t).value.kind)
    ensures LastCall(log, t).value.since == Ticks(log[..j])
    ensures forall l :: j < l < |log| ==> !(log[l].Called? && log[l].who == t)
  {
    var n := |log| - 1;
    if log[n].Called? && log[n].who == t {
      j := n;
    } else {
      j := LastCallAt(log[..n], t);
      assert log[..n][..j] == log[..j];
    }
  }

  /** Every return of a pend belongs to a call before it, on that semaphore and of that kind, with no other in between;
      a cancellable pend times out only if it has a limit and more than that many ticks passed since the call. */
  lemma ReturnAfterCall(foreign: set<Tid>, steps: seq<Step>, r: State, i: nat) returns (j: nat)
    requires Reached(foreign, steps, r) && i < |r.log| && r.log[i].Pended?
    ensures j < i && r.log[j] == Called(r.log[i].who, r.log[i].sem, r.log[i].kind)
    ensures forall l :: j < l < i ==> !(r.log[l].Called? && r.log[l].who == r.log[i].who)
    ensures r.log[i].result == TIMEOUT && r.log[i].kind.Cancellable? ==>
      r.log[i].kind.limit > 0 && Ticks(r.log[..i]) - Ticks(r.log[..j]) > r.log[i].kind.limit
    ensures r.log[i].result == TIMEOUT && r.log[i].kind.Plain? ==> r.log[i].kind.timed
  {
    ReachedInvariant(foreign, steps, r);
    assert InOrder(r.log, i);
    j := LastCallAt(r.log[..i], r.log[i].who);
    assert r.log[..i][..j] == r.log[..j];
  }

  /** A cancellable pend without a limit, or with limit 0, never times out. */
  lemma NoLimitNoTimeout(foreign: set<Tid>, steps: seq<Step>, r: State, who: Tid, x: SemId)
    requires Reached(foreign, steps, r)
    ensures Pended(who, x, TIMEOUT, Cancellable(0)) !in r.log
  {
    ReachedInvariant(foreign, steps, r);
    forall i | 0 <= i < |r.log| ensures r.log[i] != Pended(who, x, TIMEOUT, Cancellable(0)) {
      assert InOrder(r.log, i);
    }
  }
}
