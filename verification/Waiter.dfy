/** How a source sleeps while it is choked: `waiter_wait` against `waiter_set`, as called by the
    schedule update and by `sch_stop`. Each waiter has its own lock and condition variable, so
    one of them shows everything; a step is one lock operation, one atomic access or one signal. */
module Waiter {

  /** Where the sleeping side is. `Asleep` remembers whether it has been signalled since. */
  datatype Task =
    | Running                     // not inside `waiter_wait`
    | Locking                     // saw `choked`, is about to take the lock
    | Checking                    // holds the lock, about to read `choked`
    | CheckingStop                // saw `choked`, about to read `terminate`
    | FallingAsleep               // saw neither reason to go on, about to wait
    | Asleep(signalled: bool)
    | Leaving                     // holds the lock, done waiting

  /** Where the schedule update is: from the moment it has found `terminate` unset, `Wanting` to
      set this waiter; then inside `waiter_set`. */
  datatype Update = Idle | Wanting(choked: bool) | Holding(choked: bool) | Stored | Signalled

  /** Where `sch_stop` is: before it sets `terminate`, inside its `waiter_set`, or past it. */
  datatype Stop = NotCalled | Terminated | StopHolding | StopStored | StopSignalled | Passed

  datatype Lock = Free | ByTask | ByUpdate | ByStop

  datatype State = State(
    choked: bool,
    terminate: bool,
    lock: Lock,
    task: Task,
    update: Update,
    stop: Stop,
    returned: seq<bool>)          // history: what `waiter_wait` has returned

  datatype Action =
    | Call | Lock | ReadChoked | ReadStop | Sleep | Wake | Leave
    | BeginUpdate(choked: bool) | LockUpdate | Store | Signal | UnlockUpdate
    | SetTerminate | LockStop | StoreStop | SignalStop | UnlockStop

  /** `waiter_init` leaves the task unchoked; nothing depends on it. */
  predicate Initial(s: State) {
    s == State(s.choked, false, Free, Running, Idle, NotCalled, [])
  }

  predicate Enabled(s: State, a: Action) {
    match a
    case Call => s.task.Running?
    case Lock => s.task.Locking? && s.lock.Free?
    case ReadChoked => s.task.Checking?
    case ReadStop => s.task.CheckingStop?
    case Sleep => s.task.FallingAsleep?
    case Wake => s.task.Asleep? && s.lock.Free?   // signalled or not: wake-ups can be spurious
    case Leave => s.task.Leaving?
    case BeginUpdate(_) => s.update.Idle? && !s.terminate
    case LockUpdate => s.update.Wanting? && s.lock.Free?
    case Store => s.update.Holding?
    case Signal => s.update.Stored?
    case UnlockUpdate => s.update.Signalled?
    case SetTerminate => s.stop.NotCalled?
    case LockStop => s.stop.Terminated? && s.lock.Free?
    case StoreStop => s.stop.StopHolding?
    case SignalStop => s.stop.StopStored?
    case UnlockStop => s.stop.StopSignalled?
  }

  function Wakened(t: Task): Task {
    if t.Asleep? then Asleep(true) else t
  }

  function Apply(s: State, a: Action): State
    requires Enabled(s, a)
  {
    match a
    case Call => if s.choked then s.(task := Locking) else s.(returned := s.returned + [false])
    case Lock => s.(task := Checking, lock := ByTask)
    case ReadChoked => s.(task := if s.choked then CheckingStop else Leaving)
    case ReadStop => s.(task := if s.terminate then Leaving else FallingAsleep)
    case Sleep => s.(task := Asleep(false), lock := Free)
    case Wake => s.(task := Checking, lock := ByTask)
    case Leave => s.(task := Running, lock := Free, returned := s.returned + [s.terminate])
    case BeginUpdate(c) => s.(update := Wanting(c))
    case LockUpdate => s.(update := Holding(s.update.choked), lock := ByUpdate)
    case Store => s.(update := Stored, choked := s.update.choked)
    case Signal => s.(update := Signalled, task := Wakened(s.task))
    case UnlockUpdate => s.(update := Idle, lock := Free)
    case SetTerminate => s.(stop := Terminated, terminate := true)
    case LockStop => s.(stop := StopHolding, lock := ByStop)
    case StoreStop => s.(stop := StopStored, choked := true)
    case SignalStop => s.(stop := StopSignalled, task := Wakened(s.task))
    case UnlockStop => s.(stop := Passed, lock := Free)
  }

  predicate CanRun(s: State, acts: seq<Action>)
    decreases |acts|
  {
    acts == [] || (Enabled(s, acts[0]) && CanRun(Apply(s, acts[0]), acts[1..]))
  }

  function Run(s: State, acts: seq<Action>): State
    requires CanRun(s, acts)
    decreases |acts|
  {
    if acts == [] then s else Run(Apply(s, acts[0]), acts[1..])
  }

  /** The states some run of the actions ends in. */
  ghost predicate Reachable(t: State) {
    exists s, acts :: Initial(s) && CanRun(s, acts) && Run(s, acts) == t
  }

  lemma {:induction false} RunOn(s: State, acts: seq<Action>, a: Action)
    requires CanRun(s, acts) && Enabled(Run(s, acts), a)
    ensures CanRun(s, acts + [a]) && Run(s, acts + [a]) == Apply(Run(s, acts), a)
    decreases |acts|
  {
    if acts == [] {
      assert acts + [a] == [a] && [a][1..] == [];
    } else {
      RunOn(Apply(s, acts[0]), acts[1..], a);
      assert (acts + [a])[1..] == acts[1..] + [a];
    }
  }

  lemma ReachOn(t: State, a: Action)
    requires Reachable(t) && Enabled(t, a)
    ensures Reachable(Apply(t, a))
  {
    var s, acts :| Initial(s) && CanRun(s, acts) && Run(s, acts) == t;
    RunOn(s, acts, a);
  }

  predicate LockKept(s: State) {
    && (s.lock.ByTask? <==> s.task.Checking? || s.task.CheckingStop? || s.task.FallingAsleep? || s.task.Leaving?)
    && (s.lock.ByUpdate? <==> s.update.Holding? || s.update.Stored? || s.update.Signalled?)
    && (s.lock.ByStop? <==> s.stop.StopHolding? || s.stop.StopStored? || s.stop.StopSignalled?)
  }

  /** The sleeper has a signal coming for every reason it has to go on. */
  predicate SignalDue(s: State) {
    && (s.choked || s.update.Stored?)
    && (s.stop.NotCalled? || s.stop.Terminated? || s.stop.StopHolding? || s.stop.StopStored?)
  }

  predicate Inv(s: State) {
    && LockKept(s)
    && (s.stop.StopStored? || s.stop.StopSignalled? ==> s.choked)
    && (s.stop.Passed? && !s.choked ==> !s.update.Wanting? && !s.update.Holding?)
    && (s.terminate <==> !s.stop.NotCalled?)
    && (s.task.CheckingStop? || s.task.FallingAsleep? ==> s.choked)
    && (s.task.FallingAsleep? ==> s.stop.NotCalled? || s.stop.Terminated?)
    && (s.task.Leaving? ==> !s.choked || s.terminate)
    && (s.task == Asleep(false) ==> SignalDue(s))
  }

  lemma {:induction false} RunKeepsInv(s: State, acts: seq<Action>)
    requires Inv(s) && CanRun(s, acts)
    ensures Inv(Run(s, acts))
    decreases |acts|
  {
    if acts != [] {
      RunKeepsInv(Apply(s, acts[0]), acts[1..]);
    }
  }

  lemma ReachableInv(t: State)
    requires Reachable(t)
    ensures Inv(t)
  {
    var s, acts :| Initial(s) && CanRun(s, acts) && Run(s, acts) == t;
    RunKeepsInv(s, acts);
  }

  /** No wake-up is lost. Asleep and not signalled since, the task is still choked, or the
      update that unchoked it is about to signal; and `sch_stop` has not passed it, nor even
      signalled. */
  lemma NoLostWakeUp(t: State)
    requires Reachable(t) && t.task == Asleep(false)
    ensures t.choked || t.update.Stored?
    ensures !t.stop.StopSignalled? && !t.stop.Passed?
  {
    ReachableInv(t);
  }

  predicate ByTheTask(a: Action) {
    a.Lock? || a.ReadChoked? || a.ReadStop? || a.Sleep? || a.Wake? || a.Leave?
  }

  predicate BySetters(a: Action) {
    a.LockUpdate? || a.Store? || a.Signal? || a.UnlockUpdate? || a.LockStop? || a.StoreStop? ||
        a.SignalStop? || a.UnlockStop?
  }

  function StepsLeft(t: Task): nat {
    match t
    case Running => 0
    case Leaving => 1
    case CheckingStop => 2
    case Checking => 3
    case Locking => 4
    case Asleep(_) => 4
    case FallingAsleep => 5
  }

  /** The task returns to its own work once it is woken for good. With `sch_stop` past it, the
      task inside `waiter_wait` can take a step, unless the update holds the lock and can take
      one; and every step of the task brings it nearer to its return, whatever the update does
      in between. */
  lemma StopEndsEveryWait(t: State)
    requires Reachable(t) && t.stop.Passed? && !t.task.Running?
    ensures exists a: Action :: (ByTheTask(a) || BySetters(a)) && Enabled(t, a)
    ensures forall a: Action | ByTheTask(a) && Enabled(t, a) :: StepsLeft(Apply(t, a).task) < StepsLeft(t.task)
    ensures forall a: Action | !ByTheTask(a) && Enabled(t, a) :: StepsLeft(Apply(t, a).task) == StepsLeft(t.task)
  {
    ReachableInv(t);
    var a := match t.lock
      case ByUpdate => (match t.update case Holding(_) => Store case Stored => Signal case _ => UnlockUpdate)
      case ByTask => (match t.task case Checking => ReadChoked case CheckingStop => ReadStop
          case FallingAsleep => Sleep case _ => Leave)
      case _ => if t.task.Locking? then Lock else Wake;
    assert (ByTheTask(a) || BySetters(a)) && Enabled(t, a);
  }

  /** Whoever holds the lock can take a step. */
  ghost predicate HolderMoves(t: State) {
    && (t.lock.ByTask? ==> exists a: Action :: ByTheTask(a) && Enabled(t, a))
    && (t.lock.ByUpdate? ==> Enabled(t, Store) || Enabled(t, Signal) || Enabled(t, UnlockUpdate))
    && (t.lock.ByStop? ==> Enabled(t, StoreStop) || Enabled(t, SignalStop) || Enabled(t, UnlockStop))
  }

  /** Nobody is held up but by the lock, by being choked, or by having nothing left to do. */
  lemma EachPartyMoves(t: State)
    requires Reachable(t)
    ensures HolderMoves(t)
    ensures t.task.Running? ==> Enabled(t, Call)
    ensures t.lock.Free? ==> t.task.Running? || exists a: Action :: ByTheTask(a) && Enabled(t, a)
    ensures t.lock.Free? && t.update.Wanting? ==> Enabled(t, LockUpdate)
    ensures t.update.Idle? && !t.terminate ==> Enabled(t, BeginUpdate(true)) && Enabled(t, BeginUpdate(false))
    ensures t.stop.NotCalled? ==> Enabled(t, SetTerminate)
    ensures t.lock.Free? && t.stop.Terminated? ==> Enabled(t, LockStop)
  {
    ReachableInv(t);
    if t.lock.ByTask? {
      var a := match t.task
        case Checking => ReadChoked
        case CheckingStop => ReadStop
        case FallingAsleep => Sleep
        case _ => Leave;
      assert ByTheTask(a) && Enabled(t, a);
    }
    if t.lock.Free? && !t.task.Running? {
      var a := if t.task.Locking? then Lock else Wake;
      assert ByTheTask(a) && Enabled(t, a);
    }
  }

  /** An unchoked task gets out of `waiter_wait`: if it sleeps, it has been signalled or is about
      to be; unless another party holds the lock, and can step, it can step itself; every step
      of its own brings it nearer to its return, and no step of others takes it further away. */
  lemma UnchokedGoesOn(t: State)
    requires Reachable(t) && !t.task.Running? && !t.choked
    ensures t.task == Asleep(false) ==> t.update.Stored?
    ensures t.lock.Free? || t.lock.ByTask? ==> exists a: Action :: ByTheTask(a) && Enabled(t, a)
    ensures HolderMoves(t)
    ensures forall a: Action | ByTheTask(a) && Enabled(t, a) :: StepsLeft(Apply(t, a).task) < StepsLeft(t.task)
    ensures forall a: Action | !ByTheTask(a) && Enabled(t, a) :: StepsLeft(Apply(t, a).task) == StepsLeft(t.task)
  {
    EachPartyMoves(t);
    ReachableInv(t);
  }

  /** While it stays unchoked, whatever the others do, it takes no more than `StepsLeft` steps. */
  lemma {:induction false} UnchokedReturns(t: State, acts: seq<Action>)
    requires Reachable(t) && CanRun(t, acts) && UnchokedAlong(t, acts)
    ensures TaskSteps(acts) + StepsLeft(Run(t, acts).task) <= StepsLeft(t.task)
    decreases |acts|
  {
    if acts != [] {
      UnchokedGoesOn(t);
      ReachOn(t, acts[0]);
      UnchokedReturns(Apply(t, acts[0]), acts[1..]);
    }
  }

  /** The task is inside `waiter_wait`, and unchoked, before every step. */
  predicate UnchokedAlong(t: State, acts: seq<Action>)
    requires CanRun(t, acts)
    decreases |acts|
  {
    acts != [] ==> !t.choked && !t.task.Running? && UnchokedAlong(Apply(t, acts[0]), acts[1..])
  }

  function TaskSteps(acts: seq<Action>): nat {
    if acts == [] then 0 else (if ByTheTask(acts[0]) then 1 else 0) + TaskSteps(acts[1..])
  }

  /** What a return means: a task told to terminate was told so after `sch_stop` began; one let
      go by the slow path without it is unchoked at that moment. */
  lemma WhatReturnsMean(t: State, a: Action)
    requires Reachable(t) && Enabled(t, a) && |Apply(t, a).returned| > |t.returned|
    ensures Apply(t, a).returned == t.returned + [a.Leave? && !t.stop.NotCalled?]
    ensures !(a.Leave? && !t.stop.NotCalled?) ==> !t.choked
  {
    ReachableInv(t);
  }

  // ----- tasks that proceed after the stop

  /** The task is unchoked, or the update under way is about to unchoke it. */
  predicate MayBeFreed(t: State) {
    !t.choked || t.update == Wanting(false) || t.update == Holding(false)
  }

  /** From `t` on, a call of `waiter_wait` can still tell the task to proceed. */
  ghost predicate CanProceed(t: State) {
    exists acts :: CanRun(t, acts) && ToldToProceed(t, acts)
  }

  predicate ToldToProceed(t: State, acts: seq<Action>)
    requires CanRun(t, acts)
  {
    var r := Run(t, acts).returned;
    |t.returned| <= |r| && false in r[|t.returned|..]
  }

  lemma StoppedStep(t: State, a: Action)
    requires Inv(t) && t.stop.Passed? && Enabled(t, a)
    ensures var u := Apply(t, a);
      && Inv(u) && u.stop.Passed?
      && (!t.choked ==> !u.choked)
      && (!MayBeFreed(t) ==> !MayBeFreed(u) && (u.returned == t.returned || u.returned == t.returned + [true]))
  {
  }

  /** Once `sch_stop` has passed an unchoked task, it is never choked again. */
  lemma {:induction false} NeverChokedAgain(t: State, acts: seq<Action>)
    requires Reachable(t) && t.stop.Passed? && !t.choked && CanRun(t, acts)
    ensures !Run(t, acts).choked
    decreases |acts|
  {
    if acts != [] {
      ReachableInv(t);
      StoppedStep(t, acts[0]);
      ReachOn(t, acts[0]);
      NeverChokedAgain(Apply(t, acts[0]), acts[1..]);
    }
  }

  lemma {:induction false} StaysStopped(t: State, acts: seq<Action>)
    requires Inv(t) && t.stop.Passed? && !MayBeFreed(t) && CanRun(t, acts)
    ensures |t.returned| <= |Run(t, acts).returned| && t.returned == Run(t, acts).returned[..|t.returned|]
    ensures false !in Run(t, acts).returned[|t.returned|..]
    decreases |acts|
  {
    if acts != [] {
      StoppedStep(t, acts[0]);
      var u := Apply(t, acts[0]);
      StaysStopped(u, acts[1..]);
      var r := Run(t, acts).returned;
      var n, m := |t.returned|, |u.returned|;
      assert r[n..] == r[..m][n..] + r[m..];
    }
  }

  /** The steps until the task, let go, calls again and is told to proceed. */
  function StepsToProceed(t: State): nat {
    StepsLeft(t.task) + 8 * match t.update case Wanting(_) => 4 case Holding(_) => 3 case Stored => 2
        case Signalled => 1 case Idle => 0
  }

  function NextToProceed(t: State): Action {
    match t.lock
    case ByUpdate => (match t.update case Holding(_) => Store case Stored => Signal case _ => UnlockUpdate)
    case ByTask =>
      (match t.task
       case Checking => ReadChoked
       case CheckingStop => ReadStop
       case FallingAsleep => Sleep
       case _ => Leave)
    case _ =>
      if t.update.Wanting? then LockUpdate
      else if t.task.Running? then Call
      else if t.task.Locking? then Lock
      else Wake
  }

  lemma StepToProceed(t: State)
    requires Inv(t) && t.stop.Passed? && MayBeFreed(t)
    requires !(t.task.Running? && !t.choked)
    ensures var a := NextToProceed(t);
      && Enabled(t, a)
      && MayBeFreed(Apply(t, a)) && StepsToProceed(Apply(t, a)) < StepsToProceed(t)
      && (Apply(t, a).returned == t.returned || Apply(t, a).returned == t.returned + [true])
  {
  }

  lemma {:induction false} ProceedsFrom(t: State) returns (acts: seq<Action>)
    requires Inv(t) && t.stop.Passed? && MayBeFreed(t)
    ensures CanRun(t, acts) && ToldToProceed(t, acts)
    ensures t.returned <= Run(t, acts).returned
    decreases StepsToProceed(t)
  {
    if t.task.Running? && !t.choked {
      acts := [Call];
      assert CanRun(Apply(t, Call), acts[1..]);
      assert Run(t, acts).returned == t.returned + [false];
    } else {
      var a := NextToProceed(t);
      StepToProceed(t);
      StoppedStep(t, a);
      var u := Apply(t, a);
      var more := ProceedsFrom(u);
      acts := [a] + more;
      assert acts[1..] == more && Run(t, acts) == Run(u, more);
      var r := Run(u, more).returned;
      assert r[|t.returned|..] == r[|t.returned|..|u.returned|] + r[|u.returned|..];
    }
  }

  /** Once `sch_stop` has passed, a task can still be told to proceed exactly if it is unchoked at
      that moment, or an update that began before the stop is about to unchoke it. */
  lemma ProceedsAfterStopIff(t: State)
    requires Reachable(t) && t.stop.Passed?
    ensures CanProceed(t) <==> MayBeFreed(t)
  {
    ReachableInv(t);
    if MayBeFreed(t) {
      var acts := ProceedsFrom(t);
    } else {
      forall acts | CanRun(t, acts) ensures !ToldToProceed(t, acts) {
        StaysStopped(t, acts);
      }
    }
  }

  /** There is such a moment. */
  lemma StopMayPassAnUpdate()
    ensures Reachable(State(true, true, Free, Running, Wanting(false), Passed, []))
  {
    var t := State(true, false, Free, Running, Wanting(false), NotCalled, []);
    var s := State(true, false, Free, Running, Idle, NotCalled, []);
    assert Initial(s) && CanRun(s, []) && Run(s, []) == s;
    ReachOn(s, BeginUpdate(false));
    StopPasses(t);
  }

  lemma StopPasses(t: State)
    requires Reachable(t) && t.lock.Free? && t.stop.NotCalled? && t.task.Running?
    ensures Reachable(t.(choked := true, terminate := true, stop := Passed))
  {
    ReachOn(t, SetTerminate);
    var u := t.(terminate := true, stop := Terminated);
    ReachOn(u, LockStop);
    u := u.(stop := StopHolding, lock := ByStop);
    ReachOn(u, StoreStop);
    u := u.(stop := StopStored, choked := true);
    ReachOn(u, SignalStop);
    u := u.(stop := StopSignalled);
    ReachOn(u, UnlockStop);
  }
}
