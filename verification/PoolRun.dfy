/** The worker pool of internal/queue/queue.go as an interleaving of steps. Whatever a goroutine does
    between taking the mutex and releasing it, or waiting on the condition variable, is one step; a
    handler call is one step. `Signal` wakes one sleeper chosen by the environment, `Broadcast` wakes
    all, and sleepers of both kinds share the one condition variable. */
module PoolRun {
  import opened Queue

  datatype Verdict = Evaluated | Shed | Expired

  datatype Answer = Answer(id: nat, verdict: Verdict)

  /** Where a `Submit` call is. */
  datatype SubmitAt =
    | Entering
    | Collecting
    | Replying(dead: seq<Task>, looping: bool)
    | Admitting
    | Asleep
    | Looping
    | Expiring
    | Shedding
    | Returned

  /** The timer of a waiting submitter; it may still fire after it was stopped. */
  datatype Alarm = Unset | Set | Fired

  datatype Submitter = Submitter(task: Task, at: SubmitAt, alarm: Alarm)

  /** What a worker does after replying to the expired tasks its `pop` brought. */
  datatype Then = Run(task: Task) | Again | Quit

  datatype WorkerAt =
    | Popping
    | Dozing
    | Clearing(dead: seq<Task>, next: Then)
    | Running(task: Task)
    | Left_

  datatype SweeperAt = Ticking | Sweeping(dead: seq<Task>) | Stopped

  /** `enqueued`, `popped` and `dropped` record the tasks that entered the queue, left it for evaluation, and
      were taken out of it as expired. */
  datatype State = State(
    now: int,
    q: seq<Task>,
    stopping: bool,
    closed: bool,
    subs: seq<Submitter>,
    workers: seq<WorkerAt>,
    sweeper: SweeperAt,
    log: seq<Answer>,
    shed: nat,
    expired: nat,
    enqueued: seq<Task>,
    popped: seq<Task>,
    dropped: seq<Task>)

  function Start(c: Config, now: int): State {
    State(now, [], false, false, [], seq(c.workers, i => Popping), Ticking, [], 0, 0, [], [], [])
  }

  // ---- waking ----

  function Roused(at: SubmitAt): SubmitAt {
    if at.Asleep? then Looping else at
  }

  function RousedWorker(at: WorkerAt): WorkerAt {
    if at.Dozing? then Popping else at
  }

  function Broadcast(s: State): (r: State)
    ensures |r.subs| == |s.subs| && |r.workers| == |s.workers|
  {
    s.(subs := seq(|s.subs|, i requires 0 <= i < |s.subs| => s.subs[i].(at := Roused(s.subs[i].at))),
       workers := seq(|s.workers|, i requires 0 <= i < |s.workers| => RousedWorker(s.workers[i])))
  }

  /** The sleeper a `Signal` wakes. */
  datatype Woken = NoOne | Sub(i: nat) | Worker(i: nat)

  predicate AnyAsleep(s: State) {
    (exists i :: 0 <= i < |s.subs| && s.subs[i].at.Asleep?) ||
    (exists i :: 0 <= i < |s.workers| && s.workers[i].Dozing?)
  }

  /** A signal wakes exactly one sleeper if there is one. */
  predicate CanWake(s: State, w: Woken) {
    match w
    case NoOne => !AnyAsleep(s)
    case Sub(i) => i < |s.subs| && s.subs[i].at.Asleep?
    case Worker(i) => i < |s.workers| && s.workers[i].Dozing?
  }

  function Signal(s: State, w: Woken): (r: State)
    requires CanWake(s, w)
    ensures |r.subs| == |s.subs| && |r.workers| == |s.workers|
  {
    match w
    case NoOne => s
    case Sub(i) => s.(subs := s.subs[i := s.subs[i].(at := Looping)])
    case Worker(i) => s.(workers := s.workers[i := Popping])
  }

  // ---- the parts of a step ----

  function SetSub(s: State, i: nat, at: SubmitAt): State
    requires i < |s.subs|
  {
    s.(subs := s.subs[i := s.subs[i].(at := at)])
  }

  function SetWorker(s: State, i: nat, at: WorkerAt): State
    requires i < |s.workers|
  {
    s.(workers := s.workers[i := at])
  }

  /** `takeExpiredLocked`: the queue keeps what is in time; everybody is woken if anything went. */
  function Expire(c: Config, s: State): (r: State)
    ensures |r.subs| == |s.subs| && |r.workers| == |s.workers|
  {
    var s' := s.(q := Kept(c, s.now, s.q), dropped := s.dropped + Dead(c, s.now, s.q));
    if Dead(c, s.now, s.q) != [] then Broadcast(s') else s'
  }

  /** `enqueueLocked`. */
  function Enqueue(s: State, t: Task, w: Woken): (r: State)
    requires CanWake(s, w)
    ensures |r.subs| == |s.subs| && |r.workers| == |s.workers|
  {
    Signal(s.(q := s.q + [t], enqueued := s.enqueued + [t]), w)
  }

  /** A handler call for a task, with the counter that goes with it. */
  function Reply(s: State, id: nat, v: Verdict): State {
    s.(log := s.log + [Answer(id, v)],
       shed := s.shed + (if v.Shed? then 1 else 0),
       expired := s.expired + (if v.Expired? then 1 else 0))
  }

  /** One pass of the waiting loop in `submitWaitLocked`, up to the next release of the mutex. */
  function WaitPass(c: Config, s: State, i: nat, w: Woken): (r: State)
    requires i < |s.subs|
    ensures |r.subs| == |s.subs| && |r.workers| == |s.workers|
  {
    var sub := s.subs[i];
    if |s.q| >= c.depth && !sub.alarm.Fired? && !s.closed then
      var dead := Dead(c, s.now, s.q);
      if dead != [] then SetSub(Expire(c, s), i, Replying(dead, true))
      else SetSub(s, i, Asleep)
    else if s.closed then SetSub(s, i, Expiring)
    else if |s.q| < c.depth then
      if CanWake(s, w) then SetSub(Enqueue(s, sub.task, w), i, Returned) else s
    else SetSub(s, i, Expiring)
  }

  /** The locked part of `Submit`, up to the waiting loop. The loop reads the clock again, so its first pass
      is a step of its own; that others may act before it allows more runs than the mutex does. */
  function Admit(c: Config, s: State, i: nat, w: Woken): (r: State)
    requires i < |s.subs|
    ensures |r.subs| == |s.subs| && |r.workers| == |s.workers|
  {
    var sub := s.subs[i];
    if s.closed then SetSub(s, i, Expiring)
    else if |s.q| < c.depth then
      if CanWake(s, w) then SetSub(Enqueue(s, sub.task, w), i, Returned) else s
    else if c.waits then
      if Late(c, sub.task, s.now) then SetSub(s, i, Expiring)
      else s.(subs := s.subs[i := sub.(at := Looping, alarm := Set)])
    else SetSub(s, i, Shedding)
  }

  /** One pass of the loop in `pop`. */
  function Pop(c: Config, s: State, i: nat): (r: State)
    requires i < |s.workers|
    ensures |r.subs| == |s.subs| && |r.workers| == |s.workers|
  {
    var dead := Dead(c, s.now, s.q);
    var s' := Expire(c, s);
    if s'.q != [] then
      var t := s'.q[0];
      SetWorker(Broadcast(s'.(q := s'.q[1..], popped := s'.popped + [t])), i, Clearing(dead, Run(t)))
    else if s'.closed then SetWorker(s', i, Clearing(dead, Quit))
    else if dead != [] then SetWorker(s', i, Clearing(dead, Again))
    else SetWorker(s', i, Dozing)
  }

  // ---- steps ----

  datatype Step =
    | Tick(now: int)
    | Call(deadline: int)
    | Advance(i: nat, w: Woken)
    | Timer(i: nat)
    | Work(i: nat)
    | Sweep
    | SweeperStops
    | StopSignal
    | Close

  predicate Enabled(c: Config, s: State, step: Step) {
    match step
    case Tick(now) => s.now <= now
    case Call(_) => true
    case Advance(i, w) =>
      i < |s.subs| && !s.subs[i].at.Asleep? && !s.subs[i].at.Returned? &&
      ((s.subs[i].at.Admitting? || s.subs[i].at.Looping?) && !s.closed && |s.q| < c.depth ==> CanWake(s, w))
    case Timer(i) => i < |s.subs| && s.subs[i].alarm.Set?
    case Work(i) => i < |s.workers| && !s.workers[i].Dozing? && !s.workers[i].Left_?
    case Sweep => !s.sweeper.Stopped?
    case SweeperStops => s.sweeper.Ticking? && s.stopping
    case StopSignal => !s.stopping
    case Close => s.stopping && !s.closed
  }

  function Submitted(s: State, deadline: int): State {
    var t := Task(|s.subs|, deadline, s.now);
    s.(subs := s.subs + [Submitter(t, Entering, Unset)])
  }

  function AdvanceSub(c: Config, s: State, i: nat, w: Woken): (r: State)
    requires Enabled(c, s, Advance(i, w))
    ensures |r.subs| == |s.subs| && |r.workers| == |s.workers|
  {
    var sub := s.subs[i];
    match sub.at
    case Entering => SetSub(s, i, if Late(c, sub.task, s.now) then Expiring else Collecting)
    case Collecting => SetSub(Expire(c, s), i, Replying(Dead(c, s.now, s.q), false))
    case Replying(dead, looping) =>
      if dead == [] then SetSub(s, i, if looping then Looping else Admitting)
      else SetSub(Reply(s, dead[0].id, Expired), i, Replying(dead[1..], looping))
    case Admitting => Admit(c, s, i, w)
    case Looping => WaitPass(c, s, i, w)
    case Expiring => SetSub(Reply(s, sub.task.id, Expired), i, Returned)
    case Shedding => SetSub(Reply(s, sub.task.id, Shed), i, Returned)
    case Asleep => s
    case Returned => s
  }

  function WorkStep(c: Config, s: State, i: nat): (r: State)
    requires Enabled(c, s, Work(i))
    ensures |r.subs| == |s.subs| && |r.workers| == |s.workers|
  {
    match s.workers[i]
    case Popping => Pop(c, s, i)
    case Clearing(dead, next) =>
      if dead != [] then SetWorker(Reply(s, dead[0].id, Expired), i, Clearing(dead[1..], next))
      else SetWorker(s, i, match next case Run(t) => Running(t) case Again => Popping case Quit => Left_)
    case Running(t) =>
      SetWorker(Reply(s, t.id, if Late(c, t, s.now) then Expired else Evaluated), i, Popping)
    case Dozing => s
    case Left_ => s
  }

  function SweepStep(c: Config, s: State): (r: State)
    ensures |r.subs| == |s.subs| && |r.workers| == |s.workers|
  {
    match s.sweeper
    case Ticking =>
      var dead := Dead(c, s.now, s.q);
      if dead == [] then s else Expire(c, s).(sweeper := Sweeping(dead))
    case Sweeping(dead) =>
      if dead == [] then s.(sweeper := Ticking)
      else Reply(s, dead[0].id, Expired).(sweeper := Sweeping(dead[1..]))
    case Stopped => s
  }

  function Next(c: Config, s: State, step: Step): (r: State)
    requires Enabled(c, s, step)
    ensures |r.subs| == |s.subs| + (if step.Call? then 1 else 0) && |r.workers| == |s.workers|
  {
    match step
    case Tick(now) => s.(now := now)
    case Call(deadline) => Submitted(s, deadline)
    case Advance(i, w) => AdvanceSub(c, s, i, w)
    case Timer(i) => Broadcast(s.(subs := s.subs[i := s.subs[i].(alarm := Fired)]))
    case Work(i) => WorkStep(c, s, i)
    case Sweep => SweepStep(c, s)
    case SweeperStops => s.(sweeper := Stopped)
    case StopSignal => s.(stopping := true)
    case Close => Broadcast(s.(closed := true))
  }

  /** `s` is reached by some interleaving. */
  ghost predicate Reachable(c: Config, s: State, n: nat)
    decreases n
  {
    if n == 0 then exists now :: s == Start(c, now)
    else exists p, step :: Reachable(c, p, n - 1) && Enabled(c, p, step) && s == Next(c, p, step)
  }

  /** What the start has and every step keeps, every reachable state has. */
  lemma {:induction false} EveryReachable(c: Config, inv: State -> bool, s: State, n: nat)
    requires Reachable(c, s, n)
    requires forall now :: inv(Start(c, now))
    requires forall p, step :: inv(p) && Enabled(c, p, step) ==> inv(Next(c, p, step))
    ensures inv(s)
    decreases n
  {
    if n > 0 {
      var p, step :| Reachable(c, p, n - 1) && Enabled(c, p, step) && s == Next(c, p, step);
      EveryReachable(c, inv, p, n - 1);
    }
  }
}
