/** Which answer a task gets: what a single step does with it, and what an answer says over every run. */
module PoolVerdicts {
  import opened Queue
  import opened PoolRun

  // ---- lateness ----

  /** A task is late from one moment on: when no more is left of its deadline than the reserve and the smallest budget. */
  lemma LateIff(c: Config, t: Task, now: int)
    ensures Late(c, t, now) <==> now > t.enqueued + t.deadline - c.reserve - c.minBudget
  {
  }

  // ---- single steps ----

  /** The step adds this answer and no other. */
  predicate Answers(s: State, s': State, a: Answer) {
    s'.log == s.log + [a]
  }

  /** A worker evaluates the task it holds if and only if the task is not late at that moment; a late one is answered as
      expired. Either way the worker is free again. */
  lemma WorkerAnswers(c: Config, s: State, i: nat)
    requires Enabled(c, s, Work(i)) && s.workers[i].Running?
    ensures var t := s.workers[i].task;
            var s' := Next(c, s, Work(i));
            && (!Late(c, t, s.now) ==> Answers(s, s', Answer(t.id, Evaluated)) && s'.expired == s.expired)
            && (Late(c, t, s.now) ==> Answers(s, s', Answer(t.id, Expired)) && s'.expired == s.expired + 1)
            && s'.workers[i].Popping? && s'.shed == s.shed
  {
  }

  /** A free worker takes the first task that is not late, and wakes everybody; without one it leaves a closed pool, and
      sleeps only where nothing was late either. */
  lemma WorkerTakes(c: Config, s: State, i: nat)
    requires Enabled(c, s, Work(i)) && s.workers[i].Popping?
    ensures var kept, dead := Kept(c, s.now, s.q), Dead(c, s.now, s.q);
            var s' := Next(c, s, Work(i));
            && (kept != [] ==> s'.workers[i] == Clearing(dead, Run(kept[0])) && s'.q == kept[1..] &&
                               forall j :: 0 <= j < |s'.subs| ==> !s'.subs[j].at.Asleep?)
            && (kept == [] && s.closed ==> s'.workers[i] == Clearing(dead, Quit) && s'.q == [])
            && (kept == [] && !s.closed && dead != [] ==> s'.workers[i] == Clearing(dead, Again) && s'.q == [])
            && (kept == [] && !s.closed && dead == [] ==> s'.workers[i].Dozing? && s'.q == [])
            && s'.log == s.log
  {
  }

  /** After its replies a worker does what it took on: it runs its task, looks again, or leaves. */
  lemma WorkerGoesOn(c: Config, s: State, i: nat)
    requires Enabled(c, s, Work(i)) && s.workers[i].Clearing? && s.workers[i].dead == []
    ensures var s' := Next(c, s, Work(i));
            var next := s.workers[i].next;
            && (next.Run? ==> s'.workers[i] == Running(next.task))
            && (next.Again? ==> s'.workers[i].Popping?)
            && (next.Quit? ==> s'.workers[i].Left_?)
            && s'.log == s.log
  {
  }

  /** The sweeper takes every late task out of the queue and leaves the others in order. */
  lemma SweeperTakes(c: Config, s: State)
    requires s.sweeper.Ticking?
    ensures var s' := Next(c, s, Sweep);
            s'.q == Kept(c, s.now, s.q) &&
            s'.sweeper == if Dead(c, s.now, s.q) == [] then Ticking else Sweeping(Dead(c, s.now, s.q))
  {
    NoDeadKeeps(c, s.now, s.q);
  }

  lemma {:induction false} NoDeadKeeps(c: Config, now: int, q: seq<Task>)
    ensures Dead(c, now, q) == [] ==> Kept(c, now, q) == q
  {
    if q != [] {
      NoDeadKeeps(c, now, q[..|q| - 1]);
      assert q == q[..|q| - 1] + [q[|q| - 1]];
    }
  }

  /** An open pool with room takes the task of whoever is at the door or in the waiting loop, at the end of the queue. */
  lemma RoomAdmits(c: Config, s: State, i: nat, w: Woken)
    requires Enabled(c, s, Advance(i, w)) && (s.subs[i].at.Admitting? || s.subs[i].at.Looping?)
    requires !s.closed && |s.q| < c.depth
    ensures var s' := Next(c, s, Advance(i, w));
            s'.q == s.q + [s.subs[i].task] && s'.enqueued == s.enqueued + [s.subs[i].task] &&
            s'.subs[i].at.Returned? && s'.log == s.log
  {
  }

  /** What becomes of a submitter at the door of a full or closed pool, and what it is answered. */
  lemma FullTurnsAway(c: Config, s: State, i: nat, w: Woken)
    requires Enabled(c, s, Advance(i, w)) && s.subs[i].at.Admitting? && (s.closed || |s.q| >= c.depth)
    ensures var s' := Next(c, s, Advance(i, w));
            var at := s'.subs[i].at;
            && s'.q == s.q && s'.log == s.log
            && (at.Shedding? <==> !s.closed && !c.waits)
            && (at.Expiring? <==> s.closed || (c.waits && Late(c, s.subs[i].task, s.now)))
            && (at.Looping? <==> !s.closed && c.waits && !Late(c, s.subs[i].task, s.now))
            && (at.Looping? ==> s'.subs[i].alarm.Set?)
  {
  }

  /** A submitter in the waiting loop of a full pool gives up exactly when the pool is closed or its timer has fired;
      otherwise it clears out late tasks, or sleeps where there are none. */
  lemma FullKeepsWaiting(c: Config, s: State, i: nat, w: Woken)
    requires Enabled(c, s, Advance(i, w)) && s.subs[i].at.Looping? && (s.closed || |s.q| >= c.depth)
    ensures var s' := Next(c, s, Advance(i, w));
            var at := s'.subs[i].at;
            && (at.Expiring? <==> s.closed || s.subs[i].alarm.Fired?)
            && (at.Asleep? <==> !s.closed && !s.subs[i].alarm.Fired? && Dead(c, s.now, s.q) == [])
            && (!s.closed && !s.subs[i].alarm.Fired? && Dead(c, s.now, s.q) != [] ==>
                  at == Replying(Dead(c, s.now, s.q), true) && s'.q == Kept(c, s.now, s.q))
            && s'.log == s.log
  {
  }

  /** A submitter begins by checking its own deadline, and goes on by clearing out late tasks. */
  lemma EntryChecks(c: Config, s: State, i: nat, w: Woken)
    requires Enabled(c, s, Advance(i, w)) && (s.subs[i].at.Entering? || s.subs[i].at.Collecting?)
    ensures var s' := Next(c, s, Advance(i, w));
            && (s.subs[i].at.Entering? ==> s'.q == s.q)
            && (s.subs[i].at.Entering? ==> s'.subs[i].at == if Late(c, s.subs[i].task, s.now) then Expiring else Collecting)
            && (s.subs[i].at.Collecting? ==> s'.q == Kept(c, s.now, s.q) && s'.subs[i].at == Replying(Dead(c, s.now, s.q), false))
            && s'.log == s.log
  {
  }

  /** The answers a submitter gives: to its own task, or to the first of the late tasks it took out. */
  lemma SubmitterAnswers(c: Config, s: State, i: nat, w: Woken)
    requires Enabled(c, s, Advance(i, w))
    ensures var s' := Next(c, s, Advance(i, w));
            var sub := s.subs[i];
            && (sub.at.Expiring? ==> Answers(s, s', Answer(sub.task.id, Expired)) && s'.subs[i].at.Returned?)
            && (sub.at.Shedding? ==> Answers(s, s', Answer(sub.task.id, Shed)) && s'.subs[i].at.Returned?)
            && (sub.at.Replying? && sub.at.dead != [] ==> Answers(s, s', Answer(sub.at.dead[0].id, Expired)))
  {
  }

  /** A timer that fires wakes its submitter, and every other sleeper. */
  lemma TimerWakes(c: Config, s: State, i: nat)
    requires Enabled(c, s, Timer(i))
    ensures var s' := Next(c, s, Timer(i));
            s'.subs[i].alarm.Fired? && (forall j :: 0 <= j < |s'.subs| ==> !s'.subs[j].at.Asleep?) &&
            (forall j :: 0 <= j < |s'.workers| ==> !s'.workers[j].Dozing?)
  {
  }

  /** A call begins with its deadline and the time it came; the clock moves, and nothing else with it; closing closes and
      wakes everybody. */
  lemma OutsideActs(c: Config, s: State, step: Step)
    requires Enabled(c, s, step)
    ensures step.Call? ==>
              var sub := Next(c, s, step).subs[|s.subs|];
              sub.task.deadline == step.deadline && sub.task.enqueued == s.now && sub.task.id == |s.subs| && sub.at.Entering?
    ensures step.Tick? ==> Next(c, s, step) == s.(now := step.now)
    ensures step.Close? ==>
              var s' := Next(c, s, step);
              s'.closed && (forall j :: 0 <= j < |s'.subs| ==> !s'.subs[j].at.Asleep?) &&
              (forall j :: 0 <= j < |s'.workers| ==> !s'.workers[j].Dozing?)
  {
  }

  // ---- over runs ----

  /** The task has been enqueued, and its `Submit` has returned. */
  predicate Known(s: State, t: Task) {
    t.id < |s.subs| && s.subs[t.id].task == t && s.subs[t.id].at.Returned? && t in s.enqueued
  }

  predicate AllKnown(s: State, ts: seq<Task>) {
    forall t :: t in ts ==> Known(s, t)
  }

  predicate AllLate(c: Config, s: State, ts: seq<Task>) {
    forall t :: t in ts ==> Known(s, t) && Late(c, t, s.now)
  }

  predicate SubOk(c: Config, s: State, i: int)
    requires 0 <= i < |s.subs|
  {
    var sub := s.subs[i];
    && sub.task.id == i
    && (!sub.at.Returned? ==> sub.task !in s.enqueued)
    && (sub.at.Replying? ==> AllLate(c, s, sub.at.dead))
    && (sub.at.Expiring? ==> Late(c, sub.task, s.now) || s.closed || sub.alarm.Fired?)
    && (sub.at.Shedding? ==> !c.waits)
    && (Early(sub.at) ==> sub.alarm.Unset?)
  }

  /** Before a submitter waits. */
  predicate Early(at: SubmitAt) {
    at.Entering? || at.Collecting? || at.Admitting? || (at.Replying? && !at.looping)
  }

  predicate WorkerOk(c: Config, s: State, at: WorkerAt) {
    match at
    case Clearing(dead, next) => AllLate(c, s, dead) && (next.Run? ==> Known(s, next.task))
    case Running(t) => Known(s, t)
    case Popping => true
    case Dozing => true
    case Left_ => true
  }

  predicate SweeperOk(c: Config, s: State) {
    s.sweeper.Sweeping? ==> AllLate(c, s, s.sweeper.dead)
  }

  /** An answer that is right: an evaluated task was enqueued; an expired one is late, or was never enqueued because the pool
      closed or its timer fired; a shed one was never enqueued, in a pool that does not make submitters wait. */
  predicate Right(c: Config, s: State, a: Answer) {
    && a.id < |s.subs| && s.subs[a.id].at.Returned?
    && var t := s.subs[a.id].task;
       match a.verdict
       case Evaluated => t in s.enqueued
       case Expired => Late(c, t, s.now) || (t !in s.enqueued && (s.closed || s.subs[a.id].alarm.Fired?))
       case Shed => t !in s.enqueued && !c.waits
  }

  predicate Just(c: Config, s: State) {
    && (forall i :: 0 <= i < |s.subs| ==> SubOk(c, s, i))
    && (forall t :: t in s.enqueued ==> Known(s, t))
    && AllKnown(s, s.q)
    && (forall i :: 0 <= i < |s.workers| ==> WorkerOk(c, s, s.workers[i]))
    && SweeperOk(c, s)
    && (forall i :: 0 <= i < |s.log| ==> Right(c, s, s.log[i]))
  }

  /** Nothing is taken back: time, closing, tasks, returns, timers and the record of the queue. What is enqueued anew is the
      task of a submitter that had not returned and now has. */
  ghost predicate Grows(s: State, s': State) {
    && s.now <= s'.now && (s.closed ==> s'.closed) && |s.subs| <= |s'.subs|
    && (forall i :: 0 <= i < |s.subs| ==> SubGrows(s.subs[i], s'.subs[i]))
    && (forall t :: t in s.enqueued ==> t in s'.enqueued)
    && (forall t :: t in s'.enqueued && t !in s.enqueued ==> NewlyIn(s, s', t))
  }

  predicate SubGrows(a: Submitter, b: Submitter) {
    b.task == a.task && (a.at.Returned? ==> b.at.Returned?) && (a.alarm.Fired? ==> b.alarm.Fired?)
  }

  predicate NewlyIn(s: State, s': State, t: Task) {
    exists i :: 0 <= i < |s.subs| <= |s'.subs| && s.subs[i].task == t && !s.subs[i].at.Returned? && s'.subs[i].at.Returned?
  }

  /** The submitter is where it was, or was woken. */
  predicate SameSub(a: Submitter, b: Submitter) {
    (b.at == a.at || (a.at.Asleep? && b.at.Looping?)) && b.alarm == a.alarm
  }

  predicate SameWorker(a: WorkerAt, b: WorkerAt) {
    b == a || b.Popping?
  }

  /** Everyone is where they were or is all right where they are, and the log has grown by right answers. */
  ghost predicate Moves(c: Config, s: State, s': State) {
    && Grows(s, s') && |s'.workers| == |s.workers|
    && (forall i :: 0 <= i < |s'.subs| ==> (i < |s.subs| && SameSub(s.subs[i], s'.subs[i])) || SubOk(c, s', i))
    && (forall t :: t in s'.enqueued && t !in s.enqueued ==> Known(s', t))
    && (forall t :: t in s'.q ==> t in s.q || Known(s', t))
    && (forall i :: 0 <= i < |s'.workers| ==> SameWorker(s.workers[i], s'.workers[i]) || WorkerOk(c, s', s'.workers[i]))
    && (s'.sweeper == s.sweeper || SweeperOk(c, s'))
    && (s'.log == s.log || exists a :: Answers(s, s', a) && Right(c, s', a))
  }

  lemma KnownGrows(s: State, s': State, t: Task)
    requires Grows(s, s') && Known(s, t)
    ensures Known(s', t)
  {
    assert SubGrows(s.subs[t.id], s'.subs[t.id]);
  }

  lemma AllLateGrows(c: Config, s: State, s': State, ts: seq<Task>)
    requires Grows(s, s') && AllLate(c, s, ts)
    ensures AllLate(c, s', ts)
  {
    forall t | t in ts ensures Known(s', t) && Late(c, t, s'.now) { KnownGrows(s, s', t); }
  }

  /** A task that was not enqueued and whose submitter has not just returned is not enqueued. */
  lemma StaysOut(c: Config, s: State, s': State, i: nat)
    requires Just(c, s) && Grows(s, s') && i < |s.subs| && s.subs[i].task !in s.enqueued
    requires s.subs[i].at.Returned? || !s'.subs[i].at.Returned?
    ensures s'.subs[i].task !in s'.enqueued
  {
    var t := s.subs[i].task;
    assert SubGrows(s.subs[i], s'.subs[i]) && SubOk(c, s, i);
    forall j | 0 <= j < |s.subs| && s.subs[j].task == t ensures j == i { assert SubOk(c, s, j); }
    assert !NewlyIn(s, s', t);
  }

  lemma RightGrows(c: Config, s: State, s': State, a: Answer)
    requires Just(c, s) && Grows(s, s') && Right(c, s, a)
    ensures Right(c, s', a)
  {
    assert SubGrows(s.subs[a.id], s'.subs[a.id]);
    if s.subs[a.id].task !in s.enqueued { StaysOut(c, s, s', a.id); }
  }

  lemma SubStays(c: Config, s: State, s': State, i: nat)
    requires Just(c, s) && Grows(s, s') && i < |s.subs| && SameSub(s.subs[i], s'.subs[i])
    ensures SubOk(c, s', i)
  {
    assert SubOk(c, s, i) && SubGrows(s.subs[i], s'.subs[i]);
    if !s.subs[i].at.Returned? { StaysOut(c, s, s', i); }
    if s.subs[i].at.Replying? { AllLateGrows(c, s, s', s.subs[i].at.dead); }
  }

  lemma WorkerStays(c: Config, s: State, s': State, i: nat)
    requires Just(c, s) && Grows(s, s') && i < |s.workers| == |s'.workers| && SameWorker(s.workers[i], s'.workers[i])
    ensures WorkerOk(c, s', s'.workers[i])
  {
    assert WorkerOk(c, s, s.workers[i]);
    match s.workers[i] {
      case Clearing(dead, next) =>
        AllLateGrows(c, s, s', dead);
        if next.Run? { KnownGrows(s, s', next.task); }
      case Running(t) => KnownGrows(s, s', t);
      case _ =>
    }
  }

  lemma LogStays(c: Config, s: State, s': State)
    requires Just(c, s) && Moves(c, s, s')
    ensures forall i :: 0 <= i < |s'.log| ==> Right(c, s', s'.log[i])
  {
    forall i | 0 <= i < |s.log| ensures Right(c, s', s.log[i]) { RightGrows(c, s, s', s.log[i]); }
  }

  lemma JustStays(c: Config, s: State, s': State)
    requires Just(c, s) && Moves(c, s, s')
    ensures Just(c, s')
  {
    forall i | 0 <= i < |s'.subs| ensures SubOk(c, s', i) {
      if i < |s.subs| && SameSub(s.subs[i], s'.subs[i]) { SubStays(c, s, s', i); }
    }
    forall t | t in s'.enqueued ensures Known(s', t) {
      if t in s.enqueued { KnownGrows(s, s', t); }
    }
    forall t | t in s'.q ensures Known(s', t) {
      if t in s.q { KnownGrows(s, s', t); }
    }
    forall i | 0 <= i < |s'.workers| ensures WorkerOk(c, s', s'.workers[i]) {
      if SameWorker(s.workers[i], s'.workers[i]) { WorkerStays(c, s, s', i); }
    }
    if s.sweeper.Sweeping? { AllLateGrows(c, s, s', s.sweeper.dead); }
    LogStays(c, s, s');
  }

  // ---- every step moves so ----

  lemma ExpiredAre(c: Config, s: State)
    requires AllKnown(s, s.q)
    ensures AllKnown(s, Kept(c, s.now, s.q)) && AllLate(c, s, Dead(c, s.now, s.q))
    ensures forall t :: t in Kept(c, s.now, s.q) ==> t in s.q
  {
    var kept, dead := Kept(c, s.now, s.q), Dead(c, s.now, s.q);
    Partition(c, s.now, s.q);
    forall t | t in kept ensures t in s.q { assert t in multiset(kept) && t in multiset(s.q); }
    forall t | t in dead ensures t in s.q && Late(c, t, s.now) { assert t in multiset(dead) && t in multiset(s.q); }
  }

  /** Expiry leaves everyone where they were or wakes them. */
  lemma ExpireMoves(c: Config, s: State)
    requires Just(c, s)
    ensures Moves(c, s, Expire(c, s)) && Just(c, Expire(c, s))
    ensures AllLate(c, Expire(c, s), Dead(c, s.now, s.q))
  {
    ExpiredAre(c, s);
    var e := Expire(c, s);
    assert Moves(c, s, e);
    JustStays(c, s, e);
    AllLateGrows(c, s, e, Dead(c, s.now, s.q));
  }

  lemma BroadcastMoves(c: Config, s: State)
    requires Just(c, s)
    ensures Just(c, Broadcast(s))
  {
    assert Moves(c, s, Broadcast(s));
    JustStays(c, s, Broadcast(s));
  }

  /** A submitter changes its place for one that is all right. */
  lemma SubMoves(c: Config, s: State, i: nat, sub: Submitter)
    requires Just(c, s) && i < |s.subs| && SubGrows(s.subs[i], sub)
    requires SubOk(c, s.(subs := s.subs[i := sub]), i)
    ensures Just(c, s.(subs := s.subs[i := sub]))
  {
    assert Moves(c, s, s.(subs := s.subs[i := sub]));
    JustStays(c, s, s.(subs := s.subs[i := sub]));
  }

  lemma WorkerMoves(c: Config, s: State, i: nat, at: WorkerAt)
    requires Just(c, s) && i < |s.workers| && WorkerOk(c, s.(workers := s.workers[i := at]), at)
    ensures Just(c, SetWorker(s, i, at))
  {
    assert Moves(c, s, SetWorker(s, i, at));
    JustStays(c, s, SetWorker(s, i, at));
  }

  /** An answer that is right is added. */
  lemma ReplyMoves(c: Config, s: State, id: nat, v: Verdict)
    requires Just(c, s) && Right(c, s, Answer(id, v))
    ensures Just(c, Reply(s, id, v))
  {
    var s' := Reply(s, id, v);
    assert Answers(s, s', Answer(id, v)) && Right(c, s', Answer(id, v));
    assert Moves(c, s, s');
    JustStays(c, s, s');
  }

  /** The first of some late tasks is answered. */
  lemma ReplyLate(c: Config, s: State, dead: seq<Task>)
    requires Just(c, s) && AllLate(c, s, dead) && dead != []
    ensures Just(c, Reply(s, dead[0].id, Expired)) && AllLate(c, Reply(s, dead[0].id, Expired), dead[1..])
  {
    assert dead[0] in dead;
    ReplyMoves(c, s, dead[0].id, Expired);
    forall t | t in dead[1..] ensures t in dead {
    }
  }

  /** A submitter answers its own task and returns. */
  lemma OwnMoves(c: Config, s: State, i: nat, v: Verdict)
    requires Just(c, s) && i < |s.subs| && ((s.subs[i].at.Expiring? && v == Expired) || (s.subs[i].at.Shedding? && v == Shed))
    ensures Just(c, SetSub(Reply(s, s.subs[i].task.id, v), i, Returned))
  {
    assert SubOk(c, s, i);
    var a := s.(subs := s.subs[i := s.subs[i].(at := Returned)]);
    SubMoves(c, s, i, s.subs[i].(at := Returned));
    ReplyMoves(c, a, i, v);
    assert Reply(a, i, v) == SetSub(Reply(s, s.subs[i].task.id, v), i, Returned);
  }

  lemma EnterGrows(c: Config, s: State, i: nat, w: Woken)
    requires i < |s.subs| && CanWake(s, w) && !s.subs[i].at.Returned? && !s.subs[i].at.Asleep?
    ensures var s' := SetSub(Enqueue(s, s.subs[i].task, w), i, Returned);
            && Grows(s, s') && |s'.workers| == |s.workers|
            && s'.enqueued == s.enqueued + [s.subs[i].task] && s'.q == s.q + [s.subs[i].task]
            && s'.sweeper == s.sweeper && s'.log == s.log && s'.subs[i].at.Returned?
            && (forall j :: 0 <= j < |s.subs| && j != i ==> SameSub(s.subs[j], s'.subs[j]))
            && (forall j :: 0 <= j < |s.workers| ==> SameWorker(s.workers[j], s'.workers[j]))
  {
    var s' := SetSub(Enqueue(s, s.subs[i].task, w), i, Returned);
    assert s.subs[i].task == s.subs[i].task && s'.subs[i].at.Returned?;
    assert NewlyIn(s, s', s.subs[i].task);
  }

  /** A submitter's task goes into the queue, and it returns. */
  lemma EnterMoves(c: Config, s: State, i: nat, w: Woken)
    requires Just(c, s) && i < |s.subs| && CanWake(s, w) && !s.subs[i].at.Returned? && !s.subs[i].at.Asleep?
    ensures Just(c, SetSub(Enqueue(s, s.subs[i].task, w), i, Returned))
  {
    var t := s.subs[i].task;
    var s' := SetSub(Enqueue(s, t, w), i, Returned);
    EnterGrows(c, s, i, w);
    assert SubOk(c, s, i) && SubGrows(s.subs[i], s'.subs[i]);
    assert Known(s', t) && SubOk(c, s', i);
    JustStays(c, s, s');
  }

  lemma WaitPassJust(c: Config, s: State, i: nat, w: Woken)
    requires Just(c, s) && i < |s.subs| && s.subs[i].at.Looping?
    ensures Just(c, WaitPass(c, s, i, w))
  {
    var sub := s.subs[i];
    assert SubOk(c, s, i);
    if |s.q| >= c.depth && !sub.alarm.Fired? && !s.closed {
      if Dead(c, s.now, s.q) != [] { CollectJust(c, s, i, true); } else { SubMoves(c, s, i, sub.(at := Asleep)); }
    } else if !s.closed && |s.q| < c.depth {
      if CanWake(s, w) { EnterMoves(c, s, i, w); }
    } else {
      SubMoves(c, s, i, sub.(at := Expiring));
    }
  }

  /** A submitter takes the late tasks out of the queue. */
  lemma CollectJust(c: Config, s: State, i: nat, looping: bool)
    requires Just(c, s) && i < |s.subs| && (s.subs[i].at.Collecting? || (s.subs[i].at.Looping? && looping))
    ensures Just(c, SetSub(Expire(c, s), i, Replying(Dead(c, s.now, s.q), looping)))
  {
    var e := Expire(c, s);
    ExpireMoves(c, s);
    assert SubOk(c, e, i);
    SubMoves(c, e, i, e.subs[i].(at := Replying(Dead(c, s.now, s.q), looping)));
  }

  lemma AdmitJust(c: Config, s: State, i: nat, w: Woken)
    requires Just(c, s) && i < |s.subs| && s.subs[i].at.Admitting?
    ensures Just(c, Admit(c, s, i, w))
  {
    var sub := s.subs[i];
    assert SubOk(c, s, i);
    if s.closed {
      SubMoves(c, s, i, sub.(at := Expiring));
    } else if |s.q| < c.depth {
      if CanWake(s, w) { EnterMoves(c, s, i, w); }
    } else if c.waits {
      if Late(c, sub.task, s.now) {
        SubMoves(c, s, i, sub.(at := Expiring));
      } else {
        SubMoves(c, s, i, sub.(at := Looping, alarm := Set));
      }
    } else {
      SubMoves(c, s, i, sub.(at := Shedding));
    }
  }

  lemma AdvanceJust(c: Config, s: State, i: nat, w: Woken)
    requires Just(c, s) && Enabled(c, s, Advance(i, w))
    ensures Just(c, AdvanceSub(c, s, i, w))
  {
    var sub := s.subs[i];
    assert SubOk(c, s, i);
    match sub.at {
      case Entering => SubMoves(c, s, i, sub.(at := if Late(c, sub.task, s.now) then Expiring else Collecting));
      case Collecting => CollectJust(c, s, i, false);
      case Replying(dead, looping) => ReplyingJust(c, s, i, dead, looping);
      case Admitting => AdmitJust(c, s, i, w);
      case Looping => WaitPassJust(c, s, i, w);
      case Expiring => OwnMoves(c, s, i, Expired);
      case Shedding => OwnMoves(c, s, i, Shed);
      case Asleep =>
      case Returned =>
    }
  }

  lemma ReplyingJust(c: Config, s: State, i: nat, dead: seq<Task>, looping: bool)
    requires Just(c, s) && i < |s.subs| && s.subs[i].at == Replying(dead, looping)
    ensures dead == [] ==> Just(c, SetSub(s, i, if looping then Looping else Admitting))
    ensures dead != [] ==> Just(c, SetSub(Reply(s, dead[0].id, Expired), i, Replying(dead[1..], looping)))
  {
    assert SubOk(c, s, i);
    if dead == [] {
      SubMoves(c, s, i, s.subs[i].(at := if looping then Looping else Admitting));
    } else {
      var r := Reply(s, dead[0].id, Expired);
      ReplyLate(c, s, dead);
      SubMoves(c, r, i, r.subs[i].(at := Replying(dead[1..], looping)));
    }
  }

  lemma PopJust(c: Config, s: State, i: nat)
    requires Just(c, s) && i < |s.workers| && s.workers[i].Popping?
    ensures Just(c, Pop(c, s, i))
  {
    var dead := Dead(c, s.now, s.q);
    var e := Expire(c, s);
    ExpireMoves(c, s);
    if e.q != [] {
      TakeJust(c, e, i, dead);
    } else if e.closed {
      WorkerMoves(c, e, i, Clearing(dead, Quit));
    } else if dead != [] {
      WorkerMoves(c, e, i, Clearing(dead, Again));
    } else {
      WorkerMoves(c, e, i, Dozing);
    }
  }

  /** The first task of the queue is taken, and everybody woken. */
  lemma TakeJust(c: Config, s: State, i: nat, dead: seq<Task>)
    requires Just(c, s) && i < |s.workers| && s.q != [] && AllLate(c, s, dead)
    ensures Just(c, SetWorker(Broadcast(s.(q := s.q[1..], popped := s.popped + [s.q[0]])), i, Clearing(dead, Run(s.q[0]))))
  {
    var t := s.q[0];
    var f := s.(q := s.q[1..], popped := s.popped + [t]);
    var b := Broadcast(f);
    assert t in s.q;
    assert Moves(c, s, f);
    JustStays(c, s, f);
    BroadcastMoves(c, f);
    assert Moves(c, f, b);
    KnownGrows(s, f, t);
    KnownGrows(f, b, t);
    AllLateGrows(c, s, f, dead);
    AllLateGrows(c, f, b, dead);
    WorkerMoves(c, b, i, Clearing(dead, Run(t)));
  }

  lemma WorkJust(c: Config, s: State, i: nat)
    requires Just(c, s) && Enabled(c, s, Work(i))
    ensures Just(c, WorkStep(c, s, i))
  {
    assert WorkerOk(c, s, s.workers[i]);
    match s.workers[i] {
      case Popping => PopJust(c, s, i);
      case Clearing(dead, next) =>
        if dead != [] {
          var r := Reply(s, dead[0].id, Expired);
          ReplyLate(c, s, dead);
          assert WorkerOk(c, r, r.workers[i]);
          WorkerMoves(c, r, i, Clearing(dead[1..], next));
        } else {
          WorkerMoves(c, s, i, match next case Run(t) => Running(t) case Again => Popping case Quit => Left_);
        }
      case Running(t) =>
        var v := if Late(c, t, s.now) then Expired else Evaluated;
        ReplyMoves(c, s, t.id, v);
        WorkerMoves(c, Reply(s, t.id, v), i, Popping);
      case Dozing =>
      case Left_ =>
    }
  }

  lemma SweepJust(c: Config, s: State)
    requires Just(c, s)
    ensures Just(c, SweepStep(c, s))
  {
    match s.sweeper {
      case Ticking =>
        if Dead(c, s.now, s.q) != [] {
          ExpireMoves(c, s);
          SweeperMoves(c, Expire(c, s), Sweeping(Dead(c, s.now, s.q)));
        }
      case Sweeping(dead) =>
        if dead == [] {
          SweeperMoves(c, s, Ticking);
        } else {
          ReplyLate(c, s, dead);
          SweeperMoves(c, Reply(s, dead[0].id, Expired), Sweeping(dead[1..]));
        }
      case Stopped =>
    }
  }

  lemma SweeperMoves(c: Config, s: State, at: SweeperAt)
    requires Just(c, s) && (at.Sweeping? ==> AllLate(c, s, at.dead))
    ensures Just(c, s.(sweeper := at))
  {
    var s' := s.(sweeper := at);
    assert Grows(s, s');
    if at.Sweeping? { AllLateGrows(c, s, s', at.dead); }
    assert Moves(c, s, s');
    JustStays(c, s, s');
  }

  /** The clock, `Close` and a new call. */
  lemma OutsideJust(c: Config, s: State, step: Step)
    requires Just(c, s) && Enabled(c, s, step) && (step.Tick? || step.StopSignal? || step.Call?)
    ensures Just(c, Next(c, s, step))
  {
    var s' := Next(c, s, step);
    if step.Call? {
      var t := s'.subs[|s.subs|].task;
      forall u | u in s.enqueued ensures u.id < |s.subs| { assert Known(s, u); }
      assert t !in s.enqueued;
    }
    assert Moves(c, s, s');
    JustStays(c, s, s');
  }

  lemma CloseJust(c: Config, s: State)
    requires Just(c, s)
    ensures Just(c, Broadcast(s.(closed := true)))
  {
    var s' := s.(closed := true);
    assert Moves(c, s, s');
    JustStays(c, s, s');
    BroadcastMoves(c, s');
  }

  lemma TimerJust(c: Config, s: State, i: nat)
    requires Just(c, s) && i < |s.subs| && s.subs[i].alarm.Set?
    ensures Just(c, Broadcast(s.(subs := s.subs[i := s.subs[i].(alarm := Fired)])))
  {
    assert SubOk(c, s, i);
    SubMoves(c, s, i, s.subs[i].(alarm := Fired));
    BroadcastMoves(c, s.(subs := s.subs[i := s.subs[i].(alarm := Fired)]));
  }

  lemma NextJust(c: Config, s: State, step: Step)
    requires Just(c, s) && Enabled(c, s, step)
    ensures Just(c, Next(c, s, step))
  {
    match step {
      case Advance(i, w) => AdvanceJust(c, s, i, w);
      case Work(i) => WorkJust(c, s, i);
      case Sweep => SweepJust(c, s);
      case Timer(i) => TimerJust(c, s, i);
      case Close => CloseJust(c, s);
      case SweeperStops => SweeperMoves(c, s, Stopped);
      case _ => OutsideJust(c, s, step);
    }
  }

  lemma ReachableJust(c: Config, s: State, n: nat)
    requires Reachable(c, s, n)
    ensures Just(c, s)
  {
    var inv := (p: State) => Just(c, p);
    forall p, step | inv(p) && Enabled(c, p, step) ensures inv(Next(c, p, step)) {
      NextJust(c, p, step);
    }
    EveryReachable(c, inv, s, n);
  }

  /** What an answer says, in every interleaving: an evaluated task was enqueued; an expired one is late, or was never enqueued
      because the pool closed or its timer fired; a shed one was never enqueued, and the pool does not make submitters
      wait. */
  lemma AnswersAreRight(c: Config, s: State, n: nat, i: nat)
    requires Reachable(c, s, n) && i < |s.log|
    ensures var a := s.log[i];
            a.id < |s.subs| && var t := s.subs[a.id].task;
            && (a.verdict.Evaluated? ==> t in s.enqueued)
            && (a.verdict.Expired? ==> Late(c, t, s.now) || (t !in s.enqueued && (s.closed || s.subs[a.id].alarm.Fired?)))
            && (a.verdict.Shed? ==> t !in s.enqueued && !c.waits)
  {
    ReachableJust(c, s, n);
    assert Right(c, s, s.log[i]);
  }

  /** Nobody is turned away in time: whoever was enqueued and is not late yet has been evaluated if it has been answered; and
      in an open pool where no task is late and no timer has fired, nothing has expired at all. */
  lemma InTimeIsEvaluated(c: Config, s: State, n: nat, i: nat)
    requires Reachable(c, s, n) && i < |s.log|
    ensures var a := s.log[i];
            a.id < |s.subs| && var t := s.subs[a.id].task;
            && (t in s.enqueued && !Late(c, t, s.now) ==> a.verdict == Evaluated)
            && (!Late(c, t, s.now) && !s.closed && !s.subs[a.id].alarm.Fired? ==> a.verdict != Expired)
  {
    AnswersAreRight(c, s, n, i);
  }

  /** The late tasks in anyone's hands are late: only such are answered by whoever took them out of the queue. */
  lemma CollectedAreLate(c: Config, s: State, n: nat)
    requires Reachable(c, s, n)
    ensures forall i, t :: 0 <= i < |s.subs| && s.subs[i].at.Replying? && t in s.subs[i].at.dead ==> Late(c, t, s.now)
    ensures forall i, t :: 0 <= i < |s.workers| && s.workers[i].Clearing? && t in s.workers[i].dead ==> Late(c, t, s.now)
    ensures forall t :: s.sweeper.Sweeping? && t in s.sweeper.dead ==> Late(c, t, s.now)
  {
    ReachableJust(c, s, n);
    forall i, t | 0 <= i < |s.subs| && s.subs[i].at.Replying? && t in s.subs[i].at.dead ensures Late(c, t, s.now) {
      assert SubOk(c, s, i);
    }
    forall i, t | 0 <= i < |s.workers| && s.workers[i].Clearing? && t in s.workers[i].dead ensures Late(c, t, s.now) {
      assert WorkerOk(c, s, s.workers[i]);
    }
  }
}
