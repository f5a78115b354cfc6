/** Callbacks from foreign threads: an invocation is queued, the main loop is woken, drains the queue and signals every
    waiting thread.  The steps are the atomic ones: every lock, unlock, wait, signal and queue operation by itself. */
module HandOff {

  /** One call of CallbackInfo::Invoke from a foreign thread: the number of the thread and of its call. */
  datatype Invocation = Invocation(thread: nat, call: nat)

  /** How far a foreign thread is in Invoke. */
  datatype Stage =
    | Idle       // not in Invoke
    | Made       // the invocation exists and its mutex is held
    | HasQueue   // the queue mutex is held, too
    | Pushed     // the invocation is in the queue, the queue mutex still held
    | Released   // the queue mutex has been given back
    | Sent       // uv_async_send has returned
    | Waiting    // inside uv_cond_wait, the invocation's mutex released
    | Signaled   // woken, about to take the mutex again
    | Done       // WaitForExecution has returned

  datatype Thread = Thread(stage: Stage, calls: nat)

  /** How far the main loop is in WatcherCallback. */
  datatype Watcher =
    | Asleep
    | Woken                          // called, about to take the queue mutex
    | Looping                        // at the loop test, the queue mutex held
    | Popped(inv: Invocation)        // about to dispatch
    | Dispatched(inv: Invocation)    // in SignalDoneExecuting, about to lock
    | Locked(inv: Invocation)        // about to signal
    | Unlocking(inv: Invocation)     // about to unlock

  datatype Owner = Free | ByThread(t: nat) | ByWatcher

  /** locks holds the mutex of each thread's current invocation.  pushed, dispatched and returned are the history. */
  datatype State = State(threads: seq<Thread>, locks: seq<Owner>, queue: seq<Invocation>, queueLock: Owner,
                         pending: bool,
                         watcher: Watcher, pushed: seq<Invocation>, dispatched: seq<Invocation>,
                         returned: seq<Invocation>)

  datatype Action =
    | Create(t: nat) | TakeQueue(t: nat) | Push(t: nat) | DropQueue(t: nat) | Send(t: nat)
    | Wait(t: nat) | Wake(t: nat) | Destroy(t: nat)
    | Call | Take | Pop | Dispatch | Lock | Signal | Unlock | Return

  predicate At(s: State, t: nat, stage: Stage) {
    t < |s.threads| && s.threads[t].stage == stage
  }

  function Current(s: State, t: nat): Invocation
    requires t < |s.threads|
  {
    Invocation(t, s.threads[t].calls)
  }

  predicate LockIs(s: State, t: nat, o: Owner) {
    t < |s.locks| && s.locks[t] == o
  }

  /** Whether a step can be taken: a mutex is free when it is locked, a waiting thread only goes on when signaled. */
  predicate Enabled(s: State, a: Action) {
    match a
    case Create(t) => At(s, t, Idle) && t < |s.locks|
    case TakeQueue(t) => At(s, t, Made) && s.queueLock == Free
    case Push(t) => At(s, t, HasQueue)
    case DropQueue(t) => At(s, t, Pushed)
    case Send(t) => At(s, t, Released)
    case Wait(t) => At(s, t, Sent) && t < |s.locks|
    case Wake(t) => At(s, t, Signaled) && LockIs(s, t, Free)
    case Destroy(t) => At(s, t, Done) && t < |s.locks|
    case Call => s.pending && s.watcher.Asleep?
    case Take => s.watcher.Woken? && s.queueLock == Free
    case Pop => s.watcher.Looping? && s.queue != []
    case Dispatch => s.watcher.Popped?
    case Lock => s.watcher.Dispatched? && LockIs(s, s.watcher.inv.thread, Free)
    case Signal => s.watcher.Locked? && s.watcher.inv.thread < |s.threads|
    case Unlock => s.watcher.Unlocking? && s.watcher.inv.thread < |s.locks|
    case Return => s.watcher.Looping? && s.queue == []
  }

  function Staged(s: State, t: nat, stage: Stage): seq<Thread>
    requires t < |s.threads|
  {
    s.threads[t := s.threads[t].(stage := stage)]
  }

  /** A signal wakes the thread only if it is waiting; otherwise it is lost. */
  function Woke(s: State, t: nat): seq<Thread>
    requires t < |s.threads|
  {
    if s.threads[t].stage.Waiting? then Staged(s, t, Signaled) else s.threads
  }

  function Apply(s: State, a: Action): State
    requires Enabled(s, a)
  {
    match a
    case Create(t) => s.(threads := s.threads[t := Thread(Made, s.threads[t].calls + 1)],
                         locks := s.locks[t := ByThread(t)])
    case TakeQueue(t) => s.(threads := Staged(s, t, HasQueue), queueLock := ByThread(t))
    case Push(t) => s.(threads := Staged(s, t, Pushed), queue := s.queue + [Current(s, t)],
                       pushed := s.pushed + [Current(s, t)])
    case DropQueue(t) => s.(threads := Staged(s, t, Released), queueLock := Free)
    case Send(t) => s.(threads := Staged(s, t, Sent), pending := true)
    case Wait(t) => s.(threads := Staged(s, t, Waiting), locks := s.locks[t := Free])
    case Wake(t) => s.(threads := Staged(s, t, Done), locks := s.locks[t := ByThread(t)])
    case Destroy(t) => s.(threads := Staged(s, t, Idle), locks := s.locks[t := Free],
                          returned := s.returned + [Current(s, t)])
    case Call => s.(watcher := Woken, pending := false)
    case Take => s.(watcher := Looping, queueLock := ByWatcher)
    case Pop => s.(watcher := Popped(s.queue[0]), queue := s.queue[1..])
    case Dispatch => s.(watcher := Dispatched(s.watcher.inv), dispatched := s.dispatched + [s.watcher.inv])
    case Lock => s.(watcher := Locked(s.watcher.inv), locks := s.locks[s.watcher.inv.thread := ByWatcher])
    case Signal => s.(watcher := Unlocking(s.watcher.inv), threads := Woke(s, s.watcher.inv.thread))
    case Unlock => s.(watcher := Looping, locks := s.locks[s.watcher.inv.thread := Free])
    case Return => s.(watcher := Asleep, queueLock := Free)
  }

  function Start(n: nat): State {
    State(seq(n, _ => Thread(Idle, 0)), seq(n, _ => Free), [], Free, false, Asleep, [], [], [])
  }

  // The invariant

  predicate InQueueSection(g: Stage) {
    g.HasQueue? || g.Pushed?
  }

  /** From the push to the signal, the queue or the main loop refers to the invocation. */
  predicate InFlight(g: Stage) {
    g.Pushed? || g.Released? || g.Sent? || g.Waiting?
  }

  predicate HoldsOwnLock(g: Stage) {
    g.Made? || g.HasQueue? || g.Pushed? || g.Released? || g.Sent? || g.Done?
  }

  predicate Draining(w: Watcher) {
    !w.Asleep? && !w.Woken?
  }

  /** The invocation the main loop still has to signal. */
  predicate Serving(w: Watcher, i: Invocation) {
    (w.Popped? || w.Dispatched? || w.Locked?) && w.inv == i
  }

  /** i is the current invocation of a thread that is in Invoke. */
  predicate Alive(s: State, i: Invocation) {
    i.thread < |s.threads| && s.threads[i.thread].calls == i.call && !s.threads[i.thread].stage.Idle?
  }

  ghost predicate QueueLockOk(s: State) {
    && (forall t: nat :: s.queueLock == ByThread(t) ==> t < |s.threads|)
    && (forall t: nat :: t < |s.threads| ==> (InQueueSection(s.threads[t].stage) <==> s.queueLock == ByThread(t)))
    && (Draining(s.watcher) <==> s.queueLock == ByWatcher)
  }

  ghost predicate LockOk(s: State, t: nat)
    requires t < |s.threads| && t < |s.locks|
  {
    var g := s.threads[t].stage;
    && (HoldsOwnLock(g) ==> s.locks[t] == ByThread(t))
    && (g.Idle? ==> s.locks[t] == Free)
    && (g.Waiting? ==> s.locks[t] == if s.watcher == Locked(Current(s, t)) then ByWatcher else Free)
    && (g.Signaled? ==> s.locks[t] == if s.watcher == Unlocking(Current(s, t)) then ByWatcher else Free)
  }

  ghost predicate LocksOk(s: State) {
    |s.locks| == |s.threads| && forall t: nat :: t < |s.threads| ==> LockOk(s, t)
  }

  /** What the main loop holds is alive, and at the stage its own progress implies. */
  ghost predicate WatcherOk(s: State) {
    var w := s.watcher;
    && (w.Popped? || w.Dispatched? ==>
        Alive(s, w.inv) && InFlight(s.threads[w.inv.thread].stage) && !At(s, w.inv.thread, Pushed) && w.inv !in s.queue)
    && (w.Locked? ==> Alive(s, w.inv) && At(s, w.inv.thread, Waiting) && w.inv !in s.queue)
    && (w.Unlocking? ==> Alive(s, w.inv) && At(s, w.inv.thread, Signaled))
  }

  /** The queue holds exactly the invocations in flight that the main loop has not taken yet. */
  ghost predicate QueueOk(s: State) {
    && (forall i :: i in s.queue ==> Alive(s, i) && InFlight(s.threads[i.thread].stage))
    && (forall t: nat :: t < |s.threads| && InFlight(s.threads[t].stage) ==>
        Current(s, t) in s.queue || Serving(s.watcher, Current(s, t)))
  }

  ghost predicate Distinct(q: seq<Invocation>) {
    forall j, k :: 0 <= j < k < |q| ==> q[j] != q[k]
  }

  function Hand(w: Watcher): seq<Invocation> {
    if w.Popped? then [w.inv] else []
  }

  /** Everything pushed has been dispatched, is in the main loop's hand, or waits in the queue, in the order of the
      pushes. */
  ghost predicate InOrder(s: State) {
    s.pushed == s.dispatched + Hand(s.watcher) + s.queue && Distinct(s.pushed)
  }

  /** What the stages of the threads say about the history. */
  ghost predicate Recorded(s: State) {
    && (forall i :: i in s.pushed ==> i.thread < |s.threads| && i.call <= s.threads[i.thread].calls)
    && (forall t: nat :: t < |s.threads| && (s.threads[t].stage.Made? || s.threads[t].stage.HasQueue?) ==>
        Current(s, t) !in s.pushed)
    && (forall t: nat :: t < |s.threads| && (s.threads[t].stage.Signaled? || s.threads[t].stage.Done?) ==>
        Current(s, t) in s.dispatched)
    && (s.watcher.Dispatched? || s.watcher.Locked? ==> s.watcher.inv in s.dispatched)
    && (forall i :: i in s.returned ==> i in s.dispatched)
  }

  /** Whoever has left an invocation in the queue has yet to send, or the main loop is on its way. */
  ghost predicate Minded(s: State) {
    forall i :: i in s.queue ==> At(s, i.thread, Pushed) || At(s, i.thread, Released) || s.pending || !s.watcher.Asleep?
  }

  ghost predicate Inv(s: State) {
    QueueLockOk(s) && LocksOk(s) && WatcherOk(s) && QueueOk(s) && InOrder(s) && Recorded(s) && Minded(s)
  }

  predicate ByLoop(a: Action) {
    a.Call? || a.Take? || a.Pop? || a.Dispatch? || a.Lock? || a.Signal? || a.Unlock? || a.Return?
  }

  lemma StartOk(n: nat)
    ensures Inv(Start(n))
  {
  }

  lemma StepQueueLock(s: State, a: Action)
    requires Inv(s) && Enabled(s, a)
    ensures QueueLockOk(Apply(s, a))
  {
    hide LocksOk, InOrder, Recorded, QueueOk, Minded;
  }

  lemma StepLocks(s: State, a: Action)
    requires Inv(s) && Enabled(s, a)
    ensures LocksOk(Apply(s, a))
  {
    hide InOrder, Recorded, QueueOk, Minded, QueueLockOk;
    var s' := Apply(s, a);
    forall t: nat | t < |s'.threads| ensures LockOk(s', t) {
      assert LockOk(s, t);
    }
  }

  /** The front of the queue is not in the rest of it. */
  lemma FrontOnce(s: State)
    requires InOrder(s) && s.queue != []
    ensures s.queue[0] !in s.queue[1..]
    ensures s.queue[0] in s.queue
  {
    var front := |s.dispatched + Hand(s.watcher)|;
    forall k | 0 <= k < |s.queue| ensures s.queue[k] == s.pushed[front + k] {
    }
  }

  lemma StepWatcherThread(s: State, a: Action)
    requires Inv(s) && Enabled(s, a) && !ByLoop(a)
    ensures WatcherOk(Apply(s, a))
  {
    hide Minded, InOrder, Recorded, QueueOk;
    match a {
      case Create(t) => assert LockOk(s, t);
      case Wake(t) => assert LockOk(s, t);
      case _ =>
    }
  }

  lemma StepWatcherLoop(s: State, a: Action)
    requires Inv(s) && Enabled(s, a) && ByLoop(a)
    ensures WatcherOk(Apply(s, a))
  {
    hide Minded, InOrder, Recorded;
    match a {
      case Lock => assert LockOk(s, s.watcher.inv.thread);
      case Pop => FrontOnce(s);
      case _ =>
    }
  }

  predicate Entering(a: Action) {
    a.Create? || a.TakeQueue? || a.Push? || a.DropQueue?
  }

  lemma StepQueueEntering(s: State, a: Action)
    requires Inv(s) && Enabled(s, a) && Entering(a)
    ensures QueueOk(Apply(s, a))
  {
    hide Minded, InOrder, Recorded, LocksOk, WatcherOk;
  }

  lemma StepQueueLeaving(s: State, a: Action)
    requires Inv(s) && Enabled(s, a) && !ByLoop(a) && !Entering(a)
    ensures QueueOk(Apply(s, a))
  {
    hide Minded, InOrder, Recorded, LocksOk, WatcherOk;
  }

  lemma StepQueueLoop(s: State, a: Action)
    requires Inv(s) && Enabled(s, a) && ByLoop(a)
    ensures QueueOk(Apply(s, a))
  {
    hide Minded, InOrder, Recorded, LocksOk, QueueLockOk;
  }

  lemma StepOrder(s: State, a: Action)
    requires Inv(s) && Enabled(s, a)
    ensures InOrder(Apply(s, a))
  {
    hide Minded, LocksOk, WatcherOk, QueueOk, QueueLockOk;
  }

  lemma StepRecordedEntering(s: State, a: Action)
    requires Inv(s) && Enabled(s, a) && Entering(a)
    ensures Recorded(Apply(s, a))
  {
    hide Minded, LocksOk, WatcherOk, QueueOk, QueueLockOk, Distinct;
  }

  lemma StepRecordedLeaving(s: State, a: Action)
    requires Inv(s) && Enabled(s, a) && !ByLoop(a) && !Entering(a)
    ensures Recorded(Apply(s, a))
  {
    hide Minded, LocksOk, WatcherOk, QueueOk, QueueLockOk, InOrder;
  }

  lemma StepRecordedLoop(s: State, a: Action)
    requires Inv(s) && Enabled(s, a) && ByLoop(a)
    ensures Recorded(Apply(s, a))
  {
    hide Minded, LocksOk, QueueOk, QueueLockOk, InOrder;
  }

  lemma StepMinded(s: State, a: Action)
    requires Inv(s) && Enabled(s, a)
    ensures Minded(Apply(s, a))
  {
    hide InOrder, Recorded;
  }

  /** Every step keeps the invariant. */
  lemma StepOk(s: State, a: Action)
    requires Inv(s) && Enabled(s, a)
    ensures Inv(Apply(s, a))
  {
    hide QueueLockOk, LocksOk, WatcherOk, QueueOk, InOrder, Recorded, Minded, Apply, Enabled;
    StepQueueLock(s, a);
    StepLocks(s, a);
    StepOrder(s, a);
    StepMinded(s, a);
    if ByLoop(a) {
      StepWatcherLoop(s, a);
      StepQueueLoop(s, a);
      StepRecordedLoop(s, a);
    } else if Entering(a) {
      StepWatcherThread(s, a);
      StepQueueEntering(s, a);
      StepRecordedEntering(s, a);
    } else {
      StepWatcherThread(s, a);
      StepQueueLeaving(s, a);
      StepRecordedLeaving(s, a);
    }
  }

  // Runs

  /** The run of a schedule is possible. */
  ghost predicate Runs(s: State, actions: seq<Action>)
    decreases |actions|
  {
    actions != [] ==> Enabled(s, actions[0]) && Runs(Apply(s, actions[0]), actions[1..])
  }

  function After(s: State, actions: seq<Action>): State
    requires Runs(s, actions)
    decreases |actions|
  {
    if actions == [] then s else After(Apply(s, actions[0]), actions[1..])
  }

  /** The invariant holds in every state that any number of threads can reach. */
  lemma {:induction false} Reachable(s: State, actions: seq<Action>)
    requires Inv(s) && Runs(s, actions)
    ensures Inv(After(s, actions))
    decreases |actions|
  {
    hide Inv, Apply, Enabled;
    if actions != [] {
      StepOk(s, actions[0]);
      Reachable(Apply(s, actions[0]), actions[1..]);
    }
  }

  /** Hand-off safety over all runs: dispatch is in the order of the pushes and never twice; Invoke returns only after
      the dispatch of its own invocation; every pointer in the queue or in the main loop's hand is to an invocation
      that has not been destroyed. */
  lemma HandOffSafe(n: nat, actions: seq<Action>)
    requires Runs(Start(n), actions)
    ensures var s := After(Start(n), actions);
      && s.dispatched <= s.pushed && Distinct(s.dispatched)
      && (forall i :: i in s.returned ==> i in s.dispatched)
      && (forall i :: i in s.queue ==> Alive(s, i))
      && (Draining(s.watcher) && !s.watcher.Looping? ==> Alive(s, s.watcher.inv))
  {
    hide Apply, Enabled;
    StartOk(n);
    Reachable(Start(n), actions);
    OrderIsPrefix(After(Start(n), actions));
  }

  lemma OrderIsPrefix(s: State)
    requires InOrder(s)
    ensures s.dispatched <= s.pushed && Distinct(s.dispatched)
  {
    forall k | 0 <= k < |s.dispatched| ensures s.dispatched[k] == s.pushed[k] {
    }
  }

  /** A signal is never lost: when the main loop signals, the thread is in its wait. */
  lemma SignalArrives(n: nat, actions: seq<Action>)
    requires Runs(Start(n), actions) && After(Start(n), actions).watcher.Locked?
    ensures var s := After(Start(n), actions); At(s, s.watcher.inv.thread, Waiting)
  {
    hide Apply, Enabled;
    StartOk(n);
    Reachable(Start(n), actions);
  }

  /** The two kinds of mutex are taken in opposite orders, but never so that each side waits for the other: the thread
      whose mutex the main loop wants is past the queue mutex. */
  lemma NoCycle(n: nat, actions: seq<Action>)
    requires Runs(Start(n), actions) && After(Start(n), actions).watcher.Dispatched?
    ensures var s := After(Start(n), actions); var t := s.watcher.inv.thread;
      At(s, t, Released) || At(s, t, Sent) || At(s, t, Waiting)
  {
    hide Apply, Enabled;
    StartOk(n);
    Reachable(Start(n), actions);
  }

  /** No stranded invocation: if the main loop sleeps and nothing is pending, whoever is in the queue is about to
      send. */
  lemma NoneStranded(n: nat, actions: seq<Action>)
    requires Runs(Start(n), actions)
    ensures var s := After(Start(n), actions);
      s.watcher.Asleep? && !s.pending ==> forall i :: i in s.queue ==>
        At(s, i.thread, Pushed) || At(s, i.thread, Released)
  {
    hide Apply, Enabled;
    StartOk(n);
    Reachable(Start(n), actions);
  }

  /** A wake-up of a waiting thread that nobody has signaled: WaitForExecution does not test for one.  The thread goes
      on as if it had been signaled, once it has got the mutex. */
  function SpuriousWake(s: State, t: nat): State
    requires At(s, t, Waiting)
  {
    s.(threads := Staged(s, t, Signaled))
  }

  /** The thread goes on to destroy its invocation, which the main loop cannot get past. */
  predicate Doomed(s: State, t: nat, i: Invocation) {
    && At(s, t, Done) && Current(s, t) == i && LockIs(s, t, ByThread(t))
    && (i in s.queue || s.watcher == Popped(i) || s.watcher == Dispatched(i))
    && (s.watcher.Locked? || s.watcher.Unlocking? ==> s.watcher.inv.thread != t)
  }

  lemma StaysDoomed(s: State, a: Action, t: nat, i: Invocation)
    requires Doomed(s, t, i) && Enabled(s, a) && a != Destroy(t)
    ensures Doomed(Apply(s, a), t, i)
  {
    if a == Pop && i != s.queue[0] { assert i in s.queue[1..]; }
  }

  /** In the course of the actions the main loop gets the mutex of the invocation. */
  predicate LoopLocks(s: State, actions: seq<Action>, i: Invocation)
    requires Runs(s, actions)
    decreases |actions|
  {
    s.watcher == Locked(i) || (actions != [] && LoopLocks(Apply(s, actions[0]), actions[1..], i))
  }

  lemma {:induction false} DoomedUntil(s: State, actions: seq<Action>, t: nat, i: Invocation)
    requires Doomed(s, t, i) && Runs(s, actions) && Destroy(t) !in actions && i.thread == t
    ensures Doomed(After(s, actions), t, i) && !LoopLocks(s, actions, i)
    decreases |actions|
  {
    hide Apply, Enabled;
    if actions != [] {
      StaysDoomed(s, actions[0], t, i);
      DoomedUntil(Apply(s, actions[0]), actions[1..], t, i);
    }
  }

  /** As if the thread were still waiting. */
  function StillWaiting(s: State, t: nat): State
    requires t < |s.threads|
  {
    s.(threads := Staged(s, t, Waiting))
  }

  /** The thread has been woken for nothing and has not gone on yet. */
  ghost predicate WokenEarly(s: State, t: nat, i: Invocation) {
    At(s, t, Signaled) && Current(s, t) == i && Inv(StillWaiting(s, t))
  }

  /** If the thread gets the mutex before the main loop, its invocation is doomed. */
  lemma GoesOnEarly(s: State, t: nat, i: Invocation)
    requires WokenEarly(s, t, i) && Enabled(s, Wake(t))
    ensures Doomed(Apply(s, Wake(t)), t, i) && s.watcher != Locked(i)
  {
    hide InOrder, Recorded, Minded, QueueLockOk;
    assert LockOk(StillWaiting(s, t), t);
  }

  /** If the main loop does, it finds nobody waiting when it signals, and from there on all is as it should be. */
  lemma SignalsLate(s: State, t: nat, i: Invocation)
    requires WokenEarly(s, t, i) && Enabled(s, Signal) && s.watcher == Locked(i)
    ensures Inv(Apply(s, Signal))
  {
    hide Inv;
    var s0 := StillWaiting(s, t);
    assert s0.threads[t := s.threads[t]] == s.threads;
    assert Apply(s0, Signal) == Apply(s, Signal);
    StepOk(s0, Signal);
  }

  /** Any other step could have been taken without the wake-up. */
  lemma StillEarly(s: State, a: Action, t: nat, i: Invocation)
    requires WokenEarly(s, t, i) && Enabled(s, a) && a != Wake(t) && !(a == Signal && s.watcher == Locked(i))
    ensures WokenEarly(Apply(s, a), t, i) && (s.watcher == Locked(i) ==> Apply(s, a).watcher == Locked(i))
  {
    hide Inv, Apply, Enabled;
    SameStep(s, a, t, i);
    StepOk(StillWaiting(s, t), a);
  }

  lemma SameStep(s: State, a: Action, t: nat, i: Invocation)
    requires WokenEarly(s, t, i) && Enabled(s, a) && a != Wake(t) && !(a == Signal && s.watcher == Locked(i))
    ensures Enabled(StillWaiting(s, t), a) && At(Apply(s, a), t, Signaled) && Current(Apply(s, a), t) == i
    ensures StillWaiting(Apply(s, a), t) == Apply(StillWaiting(s, t), a)
    ensures s.watcher == Locked(i) ==> Apply(s, a).watcher == Locked(i)
  {
    hide LocksOk, QueueOk, InOrder, Recorded, Minded, QueueLockOk, Apply, Enabled;
    if ByLoop(a) {
      assert WatcherOk(StillWaiting(s, t));
      SameLoopStep(s, a, t, i);
    } else {
      SameThreadStep(s, a, t, i);
    }
  }

  lemma SameLoopStep(s: State, a: Action, t: nat, i: Invocation)
    requires At(s, t, Signaled) && Current(s, t) == i && WatcherOk(StillWaiting(s, t)) && Enabled(s, a) && ByLoop(a)
    requires !(a == Signal && s.watcher == Locked(i))
    ensures Enabled(StillWaiting(s, t), a) && At(Apply(s, a), t, Signaled) && Current(Apply(s, a), t) == i
    ensures StillWaiting(Apply(s, a), t) == Apply(StillWaiting(s, t), a)
    ensures s.watcher != Locked(i)
  {
    if a == Signal {
      assert s.watcher.inv.thread != t;
      OthersStage(s, t, s.watcher.inv.thread, Signaled);
    }
  }

  lemma OthersStage(s: State, t: nat, t': nat, g: Stage)
    requires t != t' && t < |s.threads| && t' < |s.threads|
    ensures Staged(StillWaiting(s, t), t', g) == Staged(s, t', g)[t := s.threads[t].(stage := Waiting)]
  {
  }

  lemma SameThreadStep(s: State, a: Action, t: nat, i: Invocation)
    requires At(s, t, Signaled) && Current(s, t) == i && Enabled(s, a) && !ByLoop(a) && a != Wake(t)
    ensures Enabled(StillWaiting(s, t), a) && At(Apply(s, a), t, Signaled) && Current(Apply(s, a), t) == i
    ensures StillWaiting(Apply(s, a), t) == Apply(StillWaiting(s, t), a) && Apply(s, a).watcher == s.watcher
  {
    assert a.t != t;
    assert StillWaiting(Apply(s, a), t).threads == Apply(StillWaiting(s, t), a).threads;
  }

  /** Which of the two gets the mutex first decides. */
  lemma {:induction false} EarlyUntil(s: State, actions: seq<Action>, t: nat, i: Invocation)
    requires WokenEarly(s, t, i) && Runs(s, actions) && Destroy(t) !in actions && At(After(s, actions), t, Done)
    ensures if LoopLocks(s, actions, i) then Inv(After(s, actions)) else Doomed(After(s, actions), t, i)
    decreases |actions|
  {
    hide Inv, Apply, Enabled, Doomed, WokenEarly;
    EarlyIs(s, t, i);
    assert actions != [];
    var a, s', rest := actions[0], Apply(s, actions[0]), actions[1..];
    if a == Wake(t) {
      GoesOnEarly(s, t, i);
      DoomedUntil(s', rest, t, i);
    } else if a == Signal && s.watcher == Locked(i) {
      SignalsLate(s, t, i);
      Reachable(s', rest);
    } else {
      StillEarly(s, a, t, i);
      EarlyUntil(s', rest, t, i);
      if s.watcher == Locked(i) { assert LoopLocks(s', rest, i); }
    }
  }

  lemma EarlyIs(s: State, t: nat, i: Invocation)
    requires WokenEarly(s, t, i)
    ensures At(s, t, Signaled) && !At(s, t, Done) && i.thread == t
  {
    hide Inv;
  }

  /** A spurious wake-up breaks the hand-off exactly if the thread gets the mutex before the main loop does: then Invoke
      destroys an invocation that the queue or the main loop still refers to.  Otherwise the invariant holds again. */
  lemma SpuriousWakeBreaks(s: State, t: nat, actions: seq<Action>)
    requires Inv(s) && At(s, t, Waiting) && Runs(SpuriousWake(s, t), actions) && Destroy(t) !in actions
    requires Enabled(After(SpuriousWake(s, t), actions), Destroy(t))
    ensures var i, s' := Current(s, t), After(SpuriousWake(s, t), actions);
      var s'' := Apply(s', Destroy(t));
      if LoopLocks(SpuriousWake(s, t), actions, i) then Inv(s') && Inv(s'')
      else !Alive(s'', i) && i in s''.returned && (i in s''.queue || Serving(s''.watcher, i))
  {
    hide Inv;
    var s1, i := SpuriousWake(s, t), Current(s, t);
    assert StillWaiting(s1, t).threads == s.threads;
    EarlyUntil(s1, actions, t, i);
    if LoopLocks(s1, actions, i) { StepOk(After(s1, actions), Destroy(t)); }
  }

  /** Both happen: the thread may go on at once, unless the main loop is about to signal. */
  lemma BothHappen(s: State, t: nat)
    requires Inv(s) && At(s, t, Waiting)
    ensures var s', i := SpuriousWake(s, t), Current(s, t);
      var actions := if s.watcher == Locked(i) then [Signal, Unlock, Wake(t)] else [Wake(t)];
      Runs(s', actions) && Enabled(After(s', actions), Destroy(t)) && (LoopLocks(s', actions, i) <==> |actions| > 1)
  {
    hide InOrder, Recorded, Minded, QueueLockOk, QueueOk, WatcherOk, Runs, After, Apply;
    assert LockOk(s, t);
    var s', i := SpuriousWake(s, t), Current(s, t);
    if s.watcher == Locked(i) {
      var all := [Signal, Unlock, Wake(t)];
      LateSteps(s', t, i);
      var s1 := Apply(s', Signal);
      var s2 := Apply(s1, Unlock);
      RunsNone(Apply(s2, Wake(t)));
      assert all[3..] == [] && all[0..] == all;
      RunsOn(s2, Apply(s2, Wake(t)), all, 2);
      RunsOn(s1, s2, all, 1);
      RunsOn(s', s1, all, 0);
    } else {
      EarlySteps(s', t);
      var all := [Wake(t)];
      RunsNone(Apply(s', Wake(t)));
      assert all[1..] == [] && all[0..] == all;
      RunsOn(s', Apply(s', Wake(t)), all, 0);
    }
  }

  lemma EarlySteps(s: State, t: nat)
    requires At(s, t, Signaled) && LockIs(s, t, Free)
    ensures Enabled(s, Wake(t)) && Apply(s, Wake(t)).watcher == s.watcher && Enabled(Apply(s, Wake(t)), Destroy(t))
  {
  }

  lemma LateSteps(s: State, t: nat, i: Invocation)
    requires At(s, t, Signaled) && s.watcher == Locked(i) && i.thread == t && t < |s.locks|
    ensures Enabled(s, Signal) && Enabled(Apply(s, Signal), Unlock)
    ensures Enabled(Apply(Apply(s, Signal), Unlock), Wake(t))
    ensures Enabled(Apply(Apply(Apply(s, Signal), Unlock), Wake(t)), Destroy(t))
  {
  }

  /** One thread, on its way into its first invocation. */
  function Entered(g: Stage, lock: Owner, queue: seq<Invocation>, queueLock: Owner, pending: bool): State {
    State([Thread(g, 1)], [lock], queue, queueLock, pending, Asleep, queue, [], [])
  }

  lemma FirstSteps()
    ensures var i := Invocation(0, 1);
      && Enabled(Start(1), Create(0)) && Apply(Start(1), Create(0)) == Entered(Made, ByThread(0), [], Free, false)
      && var s := Entered(Made, ByThread(0), [], Free, false);
      && Enabled(s, TakeQueue(0)) && Apply(s, TakeQueue(0)) == Entered(HasQueue, ByThread(0), [], ByThread(0), false)
      && var s := Entered(HasQueue, ByThread(0), [], ByThread(0), false);
      && Enabled(s, Push(0)) && Apply(s, Push(0)) == Entered(Pushed, ByThread(0), [i], ByThread(0), false)
  {
    assert Start(1).threads == [Thread(Idle, 0)] && Start(1).locks == [Free];
  }

  lemma LastSteps(q: seq<Invocation>)
    ensures var s := Entered(Pushed, ByThread(0), q, ByThread(0), false);
      && Enabled(s, DropQueue(0)) && Apply(s, DropQueue(0)) == Entered(Released, ByThread(0), q, Free, false)
      && var s := Entered(Released, ByThread(0), q, Free, false);
      && Enabled(s, Send(0)) && Apply(s, Send(0)) == Entered(Sent, ByThread(0), q, Free, true)
      && var s := Entered(Sent, ByThread(0), q, Free, true);
      && Enabled(s, Wait(0)) && Apply(s, Wait(0)) == Entered(Waiting, Free, q, Free, true)
  {
  }

  /** And a wait is reached: one thread gets as far by itself. */
  lemma WaitReached()
    ensures var actions := [Create(0), TakeQueue(0), Push(0), DropQueue(0), Send(0), Wait(0)];
      Runs(Start(1), actions) && At(After(Start(1), actions), 0, Waiting) && LockIs(After(Start(1), actions), 0, Free)
  {
    hide Apply, Enabled, Runs, After, Start;
    var q := [Invocation(0, 1)];
    FirstSteps();
    LastSteps(q);
    var all := [Create(0), TakeQueue(0), Push(0), DropQueue(0), Send(0), Wait(0)];
    var made, sent := Entered(Made, ByThread(0), [], Free, false), Entered(Sent, ByThread(0), q, Free, true);
    var hasQueue, pushed := Entered(HasQueue, ByThread(0), [], ByThread(0), false),
                            Entered(Pushed, ByThread(0), q, ByThread(0), false);
    var released, waiting := Entered(Released, ByThread(0), q, Free, false), Entered(Waiting, Free, q, Free, true);
    RunsNone(waiting);
    assert all[6..] == [];
    RunsOn(sent, waiting, all, 5);
    RunsOn(released, sent, all, 4);
    RunsOn(pushed, released, all, 3);
    RunsOn(hasQueue, pushed, all, 2);
    RunsOn(made, hasQueue, all, 1);
    RunsOn(Start(1), made, all, 0);
    assert all[0..] == all;
  }

  lemma RunsNone(s: State)
    ensures Runs(s, []) && After(s, []) == s
  {
  }

  lemma RunsOn(s: State, s': State, all: seq<Action>, k: nat)
    requires k < |all| && Enabled(s, all[k]) && Apply(s, all[k]) == s' && Runs(s', all[k + 1..])
    ensures Runs(s, all[k..]) && After(s, all[k..]) == After(s', all[k + 1..])
  {
    hide Apply, Enabled;
    assert all[k..][1..] == all[k + 1..];
  }

  // Progress

  predicate AllIdle(s: State) {
    forall t: nat :: t < |s.threads| ==> s.threads[t].stage.Idle?
  }

  /** A step that does not begin a new invocation. */
  predicate Moves(s: State, a: Action) {
    !a.Create? && Enabled(s, a)
  }

  /** Whoever holds the queue mutex can go on. */
  lemma HolderMoves(s: State) returns (a: Action)
    requires Inv(s) && s.queueLock != Free && !Draining(s.watcher)
    ensures Moves(s, a)
  {
    hide LocksOk, WatcherOk, QueueOk, InOrder, Recorded, Minded;
    var t := s.queueLock.t;
    a := if s.threads[t].stage.HasQueue? then Push(t) else DropQueue(t);
  }

  /** Once called, the main loop can go on, or a thread it waits for can. */
  lemma LoopMoves(s: State) returns (a: Action)
    requires Inv(s) && !s.watcher.Asleep?
    ensures Moves(s, a)
  {
    hide QueueOk, InOrder, Recorded, Minded;
    match s.watcher
    case Woken =>
      if s.queueLock == Free {
        a := Take;
      } else {
        a := HolderMoves(s);
      }
    case Looping => a := if s.queue != [] then Pop else Return;
    case Popped(i) => a := Dispatch;
    case Dispatched(i) =>
      assert LockOk(s, i.thread);
      a := if At(s, i.thread, Released) then Send(i.thread) else if At(s, i.thread, Sent) then Wait(i.thread) else Lock;
    case Locked(i) => a := Signal;
    case Unlocking(i) => a := Unlock;
  }

  /** No deadlock: while any thread is in Invoke, some step other than a new invocation can be taken. */
  lemma Progress(s: State, t: nat) returns (a: Action)
    requires Inv(s) && t < |s.threads| && !s.threads[t].stage.Idle?
    ensures Moves(s, a)
  {
    hide InOrder, Recorded;
    if !s.watcher.Asleep? {
      a := LoopMoves(s);
    } else if s.pending {
      a := Call;
    } else {
      assert LockOk(s, t);
      match s.threads[t].stage
      case Made =>
        if s.queueLock == Free {
          a := TakeQueue(t);
        } else {
          a := HolderMoves(s);
        }
      case HasQueue => a := Push(t);
      case Pushed => a := DropQueue(t);
      case Released => a := Send(t);
      case Sent => a := Wait(t);
      case Waiting => assert false;
      case Signaled => a := Wake(t);
      case Done => a := Destroy(t);
    }
  }

  // Every schedule that stops beginning invocations ends

  /** The steps a thread may still cause: its own, one pass of the main loop that its send asks for, and the service
      of its invocation. */
  function ThreadWork(g: Stage): nat {
    match g
    case Idle => 0
    case Made => 15
    case HasQueue => 14
    case Pushed => 8
    case Released => 7
    case Sent => 3
    case Waiting => 2
    case Signaled => 2
    case Done => 1
  }

  function Work(threads: seq<Thread>): nat {
    if threads == [] then 0 else Work(threads[..|threads| - 1]) + ThreadWork(threads[|threads| - 1].stage)
  }

  function WatcherWork(w: Watcher): nat {
    match w
    case Asleep => 0
    case Woken => 2
    case Looping => 1
    case Popped(_) => 5
    case Dispatched(_) => 4
    case Locked(_) => 3
    case Unlocking(_) => 2
  }

  /** An upper bound of the steps that can follow without a new invocation. */
  function Measure(s: State): nat {
    Work(s.threads) + 5 * |s.queue| + WatcherWork(s.watcher) + if s.pending then 3 else 0
  }

  lemma {:induction false} WorkChanges(threads: seq<Thread>, t: nat, g: Thread)
    requires t < |threads|
    ensures Work(threads[t := g]) == Work(threads) - ThreadWork(threads[t].stage) + ThreadWork(g.stage)
  {
    var n := |threads| - 1;
    var threads' := threads[t := g];
    if t == n {
      assert threads'[..n] == threads[..n];
    } else {
      WorkChanges(threads[..n], t, g);
      assert threads'[..n] == threads[..n][t := g];
    }
  }

  lemma StepWorks(s: State, a: Action)
    requires Moves(s, a)
    ensures Measure(Apply(s, a)) < Measure(s)
  {
    hide Work;
    match a
    case TakeQueue(t) => WorkChanges(s.threads, t, s.threads[t].(stage := HasQueue));
    case Push(t) => WorkChanges(s.threads, t, s.threads[t].(stage := Pushed));
    case DropQueue(t) => WorkChanges(s.threads, t, s.threads[t].(stage := Released));
    case Send(t) => WorkChanges(s.threads, t, s.threads[t].(stage := Sent));
    case Wait(t) => WorkChanges(s.threads, t, s.threads[t].(stage := Waiting));
    case Wake(t) => WorkChanges(s.threads, t, s.threads[t].(stage := Done));
    case Destroy(t) => WorkChanges(s.threads, t, s.threads[t].(stage := Idle));
    case Signal => WorkChanges(s.threads, s.watcher.inv.thread, s.threads[s.watcher.inv.thread].(stage := Signaled));
    case _ =>
  }

  /** A schedule without new invocations is no longer than the measure of the state it starts from. */
  lemma {:induction false} Bounded(s: State, actions: seq<Action>)
    requires Runs(s, actions) && forall a :: a in actions ==> !a.Create?
    ensures |actions| <= Measure(s)
    decreases |actions|
  {
    hide Apply, Enabled, Measure;
    if actions != [] {
      assert actions[0] in actions;
      StepWorks(s, actions[0]);
      Bounded(Apply(s, actions[0]), actions[1..]);
    }
  }

  /** Where nothing but a new invocation is possible, every invocation has been dispatched exactly once, in the order
      of the pushes, and has returned. */
  lemma Quiet(s: State)
    requires Inv(s) && forall a :: !Moves(s, a)
    ensures AllIdle(s) && s.queue == [] && s.dispatched == s.pushed && Distinct(s.pushed)
  {
    hide LocksOk, WatcherOk, Recorded, Enabled, Moves;
    forall t: nat | t < |s.threads| ensures s.threads[t].stage.Idle? {
      if !s.threads[t].stage.Idle? {
        var a := Progress(s, t);
      }
    }
    if !s.watcher.Asleep? {
      var a := LoopMoves(s);
    }
    if s.queue != [] {
      assert s.queue[0] in s.queue;
    }
  }

  /** From any reachable state, any schedule that begins no further invocation takes at most Measure steps, and can
      only stop when every invocation has been served. */
  lemma EveryInvocationReturns(n: nat, before: seq<Action>, actions: seq<Action>)
    requires Runs(Start(n), before)
    requires var s := After(Start(n), before); Runs(s, actions) && forall a :: a in actions ==> !a.Create?
    ensures |actions| <= Measure(After(Start(n), before))
    ensures var t := After(After(Start(n), before), actions);
      (forall a :: !Moves(t, a)) ==> AllIdle(t) && t.queue == [] && t.dispatched == t.pushed && Distinct(t.pushed)
  {
    hide Apply, Enabled, Measure, Moves, Inv;
    StartOk(n);
    Reachable(Start(n), before);
    var s := After(Start(n), before);
    Bounded(s, actions);
    Reachable(s, actions);
    if forall a :: !Moves(After(s, actions), a) {
      Quiet(After(s, actions));
    }
  }

  // The main loop's side as a program

  /** The steps of the foreign threads while the main loop holds the queue mutex: they cannot touch the queue, and the
      thread that is to be signaled only comes closer to its wait. */
  ghost predicate Meanwhile(s: State, s': State) {
    && s'.queue == s.queue && s'.queueLock == s.queueLock && s'.watcher == s.watcher && s'.dispatched == s.dispatched
    && (s.pending ==> s'.pending) && |s'.threads| == |s.threads|
    && (s.watcher.Dispatched? && s.watcher.inv.thread < |s.threads| ==>
        WayToGo(s'.threads[s.watcher.inv.thread].stage) <= WayToGo(s.threads[s.watcher.inv.thread].stage))
  }

  function WayToGo(g: Stage): nat {
    if g.Released? then 2 else if g.Sent? then 1 else 0
  }

  lemma MeanwhileNothing(s: State)
    ensures Meanwhile(s, s)
  {
  }

  lemma MeanwhileStep(s: State, s': State, a: Action)
    requires Meanwhile(s, s') && Inv(s') && Enabled(s', a) && !ByLoop(a) && Draining(s'.watcher)
    ensures Meanwhile(s, Apply(s', a))
  {
    hide LocksOk, QueueOk, InOrder, Recorded, Minded;
  }

  lemma OwnerOnItsWay(s: State)
    requires Inv(s) && s.watcher.Dispatched?
    ensures var t := s.watcher.inv.thread;
      t < |s.threads| == |s.locks| && (s.locks[t] == Free || At(s, t, Released) || At(s, t, Sent))
  {
    hide QueueLockOk, QueueOk, InOrder, Recorded, Minded;
    assert LockOk(s, s.watcher.inv.thread);
  }

  lemma OwnerStep(s: State, t: nat, own: Action)
    requires t < |s.locks| && (At(s, t, Released) || At(s, t, Sent))
    requires own == if s.threads[t].stage == Released then Send(t) else Wait(t)
    ensures Enabled(s, own) && !ByLoop(own) && WayToGo(Apply(s, own).threads[t].stage) < WayToGo(s.threads[t].stage)
  {
  }

  lemma ThreadInHand(s: State)
    requires Inv(s) && (s.watcher.Locked? || s.watcher.Unlocking?)
    ensures s.watcher.inv.thread < |s.threads| == |s.locks|
  {
    hide QueueLockOk, QueueOk, InOrder, Recorded, Minded;
  }

  lemma QueueOwner(s: State)
    requires Inv(s) && s.watcher.Woken? && s.queueLock != Free
    ensures s.queueLock.ByThread? && (At(s, s.queueLock.t, HasQueue) || At(s, s.queueLock.t, Pushed))
  {
    hide LocksOk, WatcherOk, QueueOk, InOrder, Recorded, Minded;
  }

  /** Nothing is left to do for the main loop. */
  lemma AllServed(s: State)
    requires Inv(s) && s.watcher.Asleep? && s.queue == []
    ensures s.dispatched == s.pushed && forall t: nat :: t < |s.threads| ==> !InFlight(s.threads[t].stage)
  {
    hide LocksOk, WatcherOk, QueueLockOk, Recorded, Minded;
  }

  function WithoutHistory(s: State): State {
    s.(pushed := [], dispatched := [], returned := [])
  }

  lemma HistoryAside(s: State, a: Action)
    requires Enabled(WithoutHistory(s), a)
    ensures Enabled(s, a) && WithoutHistory(Apply(s, a)) == WithoutHistory(Apply(WithoutHistory(s), a))
    ensures !ByLoop(a) ==> Apply(s, a).watcher == s.watcher
  {
  }

  /** The shared state, updated in place by the code that runs on the main loop. */
  class MainLoop {
    var threads: seq<Thread>
    var locks: seq<Owner>
    var queue: seq<Invocation>
    var queueLock: Owner
    var pending: bool
    var watcher: Watcher
    ghost var pushed: seq<Invocation>
    ghost var dispatched: seq<Invocation>
    ghost var returned: seq<Invocation>

    ghost function Abstract(): State
      reads this
    {
      State(threads, locks, queue, queueLock, pending, watcher, pushed, dispatched, returned)
    }

    /** The state without its history. */
    function Visible(): State
      reads this
    {
      State(threads, locks, queue, queueLock, pending, watcher, [], [], [])
    }

    /** A step of a foreign thread. */
    method ThreadStep(a: Action)
      requires Inv(Abstract()) && !ByLoop(a) && Enabled(Visible(), a)
      modifies this
      ensures Enabled(old(Abstract()), a) && Abstract() == Apply(old(Abstract()), a) && Inv(Abstract())
    {
      hide Inv, Apply, Enabled;
      HistoryAside(Abstract(), a);
      StepOk(Abstract(), a);
      ghost var after := Apply(Abstract(), a);
      var s := Apply(Visible(), a);
      threads, locks, queue, queueLock, pending := s.threads, s.locks, s.queue, s.queueLock, s.pending;
      pushed, dispatched, returned := after.pushed, after.dispatched, after.returned;
    }

    /** The foreign threads go on, as many steps as they like. */
    method OthersMove()
      requires Inv(Abstract()) && Draining(watcher)
      modifies this
      ensures Inv(Abstract()) && Meanwhile(old(Abstract()), Abstract())
    {
      hide Inv, Apply;
      var steps: seq<Action> := *;
      MeanwhileNothing(Abstract());
      for k := 0 to |steps|
        invariant Inv(Abstract()) && Meanwhile(old(Abstract()), Abstract())
      {
        if !ByLoop(steps[k]) && Enabled(Visible(), steps[k]) {
          MeanwhileStep(old(Abstract()), Abstract(), steps[k]);
          ThreadStep(steps[k]);
        }
      }
    }

    /** uv_mutex_lock: the main loop stands still until the thread, which is on its way to its wait, has released the
        mutex. */
    method LockMutex(inv: Invocation)
      requires Inv(Abstract()) && watcher == Dispatched(inv)
      modifies this
      ensures Inv(Abstract()) && Meanwhile(old(Abstract()), Abstract().(watcher := old(watcher)))
      ensures watcher == Locked(inv)
    {
      hide Inv, Apply, Enabled;
      var t := inv.thread;
      OthersMove();
      OwnerOnItsWay(Abstract());
      while locks[t] != Free
        invariant Inv(Abstract()) && Meanwhile(old(Abstract()), Abstract())
        invariant t < |threads| == |locks|
        invariant (locks[t] == Free || At(Abstract(), t, Released) || At(Abstract(), t, Sent))
        decreases WayToGo(threads[t].stage)
      {
        var own := if threads[t].stage == Released then Send(t) else Wait(t);
        OwnerStep(Visible(), t, own);
        OwnerStep(Abstract(), t, own);
        MeanwhileStep(old(Abstract()), Abstract(), own);
        ThreadStep(own);
        OthersMove();
        OwnerOnItsWay(Abstract());
      }
      TakeMutex(inv);
    }

    method TakeMutex(inv: Invocation)
      requires Inv(Abstract()) && watcher == Dispatched(inv) && inv.thread < |locks| && locks[inv.thread] == Free
      modifies this`locks, this`watcher
      ensures Inv(Abstract()) && watcher == Locked(inv)
    {
      hide Inv;
      StepOk(Abstract(), Lock);
      locks := locks[inv.thread := ByWatcher];
      watcher := Locked(inv);
    }

    /** DispatchToV8, then SignalDoneExecuting. */
    method DispatchAndSignal(inv: Invocation)
      requires Inv(Abstract()) && watcher == Popped(inv)
      modifies this
      ensures Inv(Abstract()) && watcher == Looping && queue == old(queue) && queueLock == old(queueLock)
      ensures dispatched == old(dispatched) + [inv] && (old(pending) ==> pending)
    {
      hide Inv, Apply, Enabled;
      OthersMove();
      Dispatch(inv);
      LockMutex(inv);
      OthersMove();
      SignalAndUnlock(inv);
    }

    method Dispatch(inv: Invocation)
      requires Inv(Abstract()) && watcher == Popped(inv)
      modifies this`watcher, this`dispatched
      ensures Inv(Abstract()) && watcher == Dispatched(inv) && dispatched == old(dispatched) + [inv]
    {
      hide Inv;
      StepOk(Abstract(), Action.Dispatch);
      dispatched := dispatched + [inv];
      watcher := Dispatched(inv);
    }

    method SignalAndUnlock(inv: Invocation)
      requires Inv(Abstract()) && watcher == Locked(inv)
      modifies this
      ensures Inv(Abstract()) && Meanwhile(old(Abstract()), Abstract().(watcher := old(watcher))) && watcher == Looping
    {
      hide Inv;
      SignalThread(inv);
      OthersMove();
      ThreadInHand(Abstract());
      StepOk(Abstract(), Unlock);
      locks := locks[inv.thread := Free];
      watcher := Looping;
    }

    method SignalThread(inv: Invocation)
      requires Inv(Abstract()) && watcher == Locked(inv)
      modifies this`threads, this`watcher
      ensures Inv(Abstract()) && watcher == Unlocking(inv) && |threads| == |old(threads)|
    {
      hide Inv;
      ThreadInHand(Abstract());
      StepOk(Abstract(), Signal);
      threads := Woke(Visible(), inv.thread);
      watcher := Unlocking(inv);
    }

    /** uv_mutex_lock on the queue: the thread that has it finishes its push. */
    method LockQueue()
      requires Inv(Abstract()) && watcher.Woken?
      modifies this
      ensures Inv(Abstract()) && watcher == Looping && queueLock == ByWatcher && pending == old(pending)
      ensures dispatched == old(dispatched) && old(queue) <= queue
    {
      hide Inv;
      while queueLock != Free
        invariant Inv(Abstract()) && watcher.Woken? && pending == old(pending) && dispatched == old(dispatched)
        invariant old(queue) <= queue
        decreases
          if queueLock == Free then 0 else if queueLock.ByThread? && At(Abstract(), queueLock.t, HasQueue) then 2 else 1
      {
        QueueOwner(Abstract());
        ThreadStep(if threads[queueLock.t].stage == HasQueue then Push(queueLock.t) else DropQueue(queueLock.t));
      }
      StepOk(Abstract(), Take);
      queueLock := ByWatcher;
      watcher := Looping;
    }

    method PopFront() returns (inv: Invocation)
      requires Inv(Abstract()) && watcher == Looping && queue != []
      modifies this`queue, this`watcher
      ensures Inv(Abstract()) && watcher == Popped(inv) && old(queue) == [inv] + queue
    {
      hide Inv;
      StepOk(Abstract(), Pop);
      inv := queue[0];
      queue := queue[1..];
      watcher := Popped(inv);
    }

    /** Whatever the foreign threads do meanwhile, one call serves the whole queue, in order, however many sends it
        answers, and leaves no thread on its way to a wait or in it. */
    method WatcherCallback()
      requires Inv(Abstract()) && watcher.Woken?
      modifies this
      ensures Inv(Abstract()) && watcher.Asleep? && queue == [] && queueLock == Free && (old(pending) ==> pending)
      ensures old(dispatched) + old(queue) <= dispatched == pushed
      ensures forall t: nat :: t < |threads| ==> !InFlight(threads[t].stage)
    {
      hide Inv, Apply, Enabled;
      LockQueue();
      ghost var all := dispatched + queue;
      assert old(dispatched) + old(queue) <= all;
      while queue != []
        invariant Inv(Abstract()) && watcher == Looping && queueLock == ByWatcher && (old(pending) ==> pending)
        invariant dispatched + queue == all
        decreases |queue|
      {
        var inv := PopFront();
        DispatchAndSignal(inv);
      }
      assert all == dispatched;
      FinishCallback();
      AllServed(Abstract());
    }

    method FinishCallback()
      requires Inv(Abstract()) && watcher == Looping && queue == []
      modifies this`watcher, this`queueLock
      ensures Inv(Abstract()) && watcher == Asleep && queueLock == Free
    {
      hide Inv;
      StepOk(Abstract(), Return);
      queueLock := Free;
      watcher := Asleep;
    }
  }
}
