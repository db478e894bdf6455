/** What every interleaving of the worker pool conserves: each submitted task is in exactly one place
    until it is answered, and is answered exactly once; tasks reach evaluation in queue order; and a
    closed pool drains. */
module PoolAccount {
  import opened Queue
  import opened PoolRun
  import opened PoolWake

  // ---- weights: for x >= 0 they count task x, for x < 0 they count every task ----

  function Unit(x: int, id: nat): nat {
    if x < 0 || x == id then 1 else 0
  }

  function InList(x: int, ts: seq<Task>): nat {
    if ts == [] then 0 else InList(x, ts[..|ts| - 1]) + Unit(x, ts[|ts| - 1].id)
  }

  function InSub(x: int, sub: Submitter): nat {
    (if sub.at.Returned? then 0 else Unit(x, sub.task.id)) +
    (if sub.at.Replying? then InList(x, sub.at.dead) else 0)
  }

  function InWorker(x: int, at: WorkerAt): nat {
    match at
    case Clearing(dead, next) => InList(x, dead) + (if next.Run? then Unit(x, next.task.id) else 0)
    case Running(t) => Unit(x, t.id)
    case Popping => 0
    case Dozing => 0
    case Left_ => 0
  }

  function InSweeper(x: int, at: SweeperAt): nat {
    if at.Sweeping? then InList(x, at.dead) else 0
  }

  function SubWeigher(x: int): Submitter -> nat {
    sub => InSub(x, sub)
  }

  function WorkerWeigher(x: int): WorkerAt -> nat {
    at => InWorker(x, at)
  }

  function InSubs(x: int, subs: seq<Submitter>): nat {
    Sum(SubWeigher(x), subs)
  }

  function InWorkers(x: int, ws: seq<WorkerAt>): nat {
    Sum(WorkerWeigher(x), ws)
  }

  function InLog(x: int, log: seq<Answer>): nat {
    if log == [] then 0 else InLog(x, log[..|log| - 1]) + Unit(x, log[|log| - 1].id)
  }

  /** Everywhere a task can be. */
  function Weight(x: int, s: State): nat {
    InList(x, s.q) + InSubs(x, s.subs) + InWorkers(x, s.workers) + InSweeper(x, s.sweeper) + InLog(x, s.log)
  }

  lemma InListSnoc(x: int, ts: seq<Task>, t: Task)
    ensures InList(x, ts + [t]) == InList(x, ts) + Unit(x, t.id)
  {
    assert (ts + [t])[..|ts|] == ts;
  }

  lemma {:induction false} InListTail(x: int, ts: seq<Task>)
    requires ts != []
    ensures InList(x, ts) == Unit(x, ts[0].id) + InList(x, ts[1..])
  {
    var n := |ts| - 1;
    if n == 0 {
      assert ts[..0] == [] && ts[1..] == [];
    } else {
      InListTail(x, ts[..n]);
      assert ts[..n][1..] == ts[1..][..n - 1];
    }
  }

  lemma {:induction false} InListPartition(x: int, c: Config, now: int, ts: seq<Task>)
    ensures InList(x, Kept(c, now, ts)) + InList(x, Dead(c, now, ts)) == InList(x, ts)
  {
    if ts != [] {
      var front := ts[..|ts| - 1];
      InListPartition(x, c, now, front);
      InListSnoc(x, Kept(c, now, front), ts[|ts| - 1]);
      InListSnoc(x, Dead(c, now, front), ts[|ts| - 1]);
    }
  }

  // ---- sums ----

  function Sum<T>(f: T -> nat, s: seq<T>): nat {
    if s == [] then 0 else Sum(f, s[..|s| - 1]) + f(s[|s| - 1])
  }

  lemma {:induction false} SumUpdate<T>(f: T -> nat, s: seq<T>, i: nat, x: T)
    requires i < |s|
    ensures Sum(f, s[i := x]) == Sum(f, s) - f(s[i]) + f(x)
    ensures Sum(f, s) >= f(s[i])
  {
    var n := |s| - 1;
    if i < n {
      SumUpdate(f, s[..n], i, x);
      assert s[i := x][..n] == s[..n][i := x];
    } else {
      assert s[i := x][..n] == s[..n];
    }
  }

  lemma {:induction false} SumSame<T>(f: T -> nat, a: seq<T>, b: seq<T>)
    requires |a| == |b| && forall i :: 0 <= i < |a| ==> f(a[i]) == f(b[i])
    ensures Sum(f, a) == Sum(f, b)
  {
    if a != [] {
      SumSame(f, a[..|a| - 1], b[..|b| - 1]);
    }
  }

  lemma {:induction false} SumZero<T>(f: T -> nat, s: seq<T>)
    requires forall i :: 0 <= i < |s| ==> f(s[i]) == 0
    ensures Sum(f, s) == 0
  {
    if s != [] {
      SumZero(f, s[..|s| - 1]);
    }
  }

  // ---- the parts of a step move weight and do not make it ----

  lemma BroadcastKeeps(x: int, s: State)
    ensures Weight(x, Broadcast(s)) == Weight(x, s)
    ensures InSubs(x, Broadcast(s).subs) == InSubs(x, s.subs)
    ensures InWorkers(x, Broadcast(s).workers) == InWorkers(x, s.workers)
  {
    SumSame(SubWeigher(x), Broadcast(s).subs, s.subs);
    SumSame(WorkerWeigher(x), Broadcast(s).workers, s.workers);
  }

  lemma SetSubWeight(x: int, s: State, i: nat, at: SubmitAt)
    requires i < |s.subs|
    ensures Weight(x, SetSub(s, i, at)) + InSub(x, s.subs[i]) == Weight(x, s) + InSub(x, s.subs[i].(at := at))
  {
    SumUpdate(SubWeigher(x), s.subs, i, s.subs[i].(at := at));
  }

  lemma SetWorkerWeight(x: int, s: State, i: nat, at: WorkerAt)
    requires i < |s.workers|
    ensures Weight(x, SetWorker(s, i, at)) + InWorker(x, s.workers[i]) == Weight(x, s) + InWorker(x, at)
  {
    SumUpdate(WorkerWeigher(x), s.workers, i, at);
  }

  lemma ReplyWeight(x: int, s: State, id: nat, v: Verdict)
    ensures Weight(x, Reply(s, id, v)) == Weight(x, s) + Unit(x, id)
  {
    assert (s.log + [Answer(id, v)])[..|s.log|] == s.log;
  }

  /** Expiry takes the weight of the dead out of the queue and touches nobody's hands. */
  lemma ExpireWeight(x: int, c: Config, s: State)
    ensures Weight(x, Expire(c, s)) + InList(x, Dead(c, s.now, s.q)) == Weight(x, s)
    ensures |Expire(c, s).subs| == |s.subs| && |Expire(c, s).workers| == |s.workers|
    ensures forall i :: 0 <= i < |s.subs| ==> InSub(x, Expire(c, s).subs[i]) == InSub(x, s.subs[i])
    ensures forall i :: 0 <= i < |s.workers| ==> InWorker(x, Expire(c, s).workers[i]) == InWorker(x, s.workers[i])
  {
    InListPartition(x, c, s.now, s.q);
    var s' := s.(q := Kept(c, s.now, s.q), dropped := s.dropped + Dead(c, s.now, s.q));
    BroadcastKeeps(x, s');
    assert Weight(x, s') + InList(x, Dead(c, s.now, s.q)) == Weight(x, s);
  }

  lemma EnqueueWeight(x: int, s: State, t: Task, w: Woken)
    requires CanWake(s, w)
    ensures Weight(x, Enqueue(s, t, w)) == Weight(x, s) + Unit(x, t.id)
    ensures |Enqueue(s, t, w).subs| == |s.subs|
    ensures forall i :: 0 <= i < |s.subs| ==>
              Enqueue(s, t, w).subs[i].task == s.subs[i].task && InSub(x, Enqueue(s, t, w).subs[i]) == InSub(x, s.subs[i])
  {
    var queued := s.(q := s.q + [t], enqueued := s.enqueued + [t]);
    InListSnoc(x, s.q, t);
    assert CanWake(queued, w);
    match w
    case NoOne =>
    case Sub(i) => WakeSubWeight(x, queued, i);
    case Worker(i) => WakeWorkerWeight(x, queued, i);
  }

  lemma WakeSubWeight(x: int, s: State, i: nat)
    requires i < |s.subs| && s.subs[i].at.Asleep?
    ensures Weight(x, Signal(s, Sub(i))) == Weight(x, s)
    ensures forall j :: 0 <= j < |s.subs| ==>
              Signal(s, Sub(i)).subs[j].task == s.subs[j].task && InSub(x, Signal(s, Sub(i)).subs[j]) == InSub(x, s.subs[j])
  {
    SumUpdate(SubWeigher(x), s.subs, i, s.subs[i].(at := Looping));
  }

  lemma WakeWorkerWeight(x: int, s: State, i: nat)
    requires i < |s.workers| && s.workers[i].Dozing?
    ensures Weight(x, Signal(s, Worker(i))) == Weight(x, s)
  {
    SumUpdate(WorkerWeigher(x), s.workers, i, Popping);
  }

  /** A submitter that is in the waiting loop or at the door holds its task and nothing else. */
  lemma EnterQueue(x: int, s: State, i: nat, w: Woken)
    requires i < |s.subs| && (s.subs[i].at.Looping? || s.subs[i].at.Admitting?) && CanWake(s, w)
    ensures Weight(x, SetSub(Enqueue(s, s.subs[i].task, w), i, Returned)) == Weight(x, s)
  {
    var e := Enqueue(s, s.subs[i].task, w);
    EnqueueWeight(x, s, s.subs[i].task, w);
    SetSubWeight(x, e, i, Returned);
  }

  lemma WaitPassWeight(x: int, c: Config, s: State, i: nat, w: Woken)
    requires i < |s.subs| && (s.subs[i].at.Looping? || s.subs[i].at.Admitting?)
    ensures Weight(x, WaitPass(c, s, i, w)) == Weight(x, s)
  {
    if |s.q| >= c.depth && !s.subs[i].alarm.Fired? && !s.closed {
      if Dead(c, s.now, s.q) != [] {
        WaitExpireWeight(x, c, s, i);
      } else {
        SetSubWeight(x, s, i, Asleep);
      }
    } else if !s.closed && |s.q| < c.depth {
      if CanWake(s, w) { EnterQueue(x, s, i, w); }
    } else {
      SetSubWeight(x, s, i, Expiring);
    }
  }

  lemma WaitExpireWeight(x: int, c: Config, s: State, i: nat)
    requires i < |s.subs| && (s.subs[i].at.Looping? || s.subs[i].at.Admitting?)
    ensures Weight(x, SetSub(Expire(c, s), i, Replying(Dead(c, s.now, s.q), true))) == Weight(x, s)
  {
    var e := Expire(c, s);
    ExpireWeight(x, c, s);
    SetSubWeight(x, e, i, Replying(Dead(c, s.now, s.q), true));
    assert e.subs[i].task == s.subs[i].task && e.subs[i].at == s.subs[i].at;
  }

  lemma AdmitWeight(x: int, c: Config, s: State, i: nat, w: Woken)
    requires i < |s.subs| && s.subs[i].at.Admitting?
    ensures Weight(x, Admit(c, s, i, w)) == Weight(x, s)
  {
    var sub := s.subs[i];
    SetSubWeight(x, s, i, Expiring);
    SetSubWeight(x, s, i, Shedding);
    if !s.closed && |s.q| < c.depth && CanWake(s, w) {
      EnterQueue(x, s, i, w);
    } else if !s.closed && |s.q| >= c.depth {
      SumUpdate(SubWeigher(x), s.subs, i, sub.(at := Looping, alarm := Set));
    }
  }

  lemma CollectWeight(x: int, c: Config, s: State, i: nat)
    requires i < |s.subs| && s.subs[i].at.Collecting?
    ensures Weight(x, SetSub(Expire(c, s), i, Replying(Dead(c, s.now, s.q), false))) == Weight(x, s)
  {
    var e := Expire(c, s);
    ExpireWeight(x, c, s);
    SetSubWeight(x, e, i, Replying(Dead(c, s.now, s.q), false));
    assert e.subs[i].task == s.subs[i].task && e.subs[i].at == s.subs[i].at;
  }

  lemma ReplyingWeight(x: int, s: State, i: nat, dead: seq<Task>, looping: bool)
    requires i < |s.subs| && s.subs[i].at == Replying(dead, looping) && dead != []
    ensures Weight(x, SetSub(Reply(s, dead[0].id, Expired), i, Replying(dead[1..], looping))) == Weight(x, s)
  {
    ReplyWeight(x, s, dead[0].id, Expired);
    SetSubWeight(x, Reply(s, dead[0].id, Expired), i, Replying(dead[1..], looping));
    InListTail(x, dead);
  }

  lemma AnswerWeight(x: int, s: State, i: nat, v: Verdict)
    requires i < |s.subs| && (s.subs[i].at.Expiring? || s.subs[i].at.Shedding?)
    ensures Weight(x, SetSub(Reply(s, s.subs[i].task.id, v), i, Returned)) == Weight(x, s)
  {
    ReplyWeight(x, s, s.subs[i].task.id, v);
    SetSubWeight(x, Reply(s, s.subs[i].task.id, v), i, Returned);
  }

  lemma AdvanceWeight(x: int, c: Config, s: State, i: nat, w: Woken)
    requires Enabled(c, s, Advance(i, w))
    ensures Weight(x, AdvanceSub(c, s, i, w)) == Weight(x, s)
  {
    match s.subs[i].at {
      case Entering => SetSubWeight(x, s, i, if Late(c, s.subs[i].task, s.now) then Expiring else Collecting);
      case Collecting => CollectWeight(x, c, s, i);
      case Replying(dead, looping) =>
        if dead == [] {
          SetSubWeight(x, s, i, if looping then Looping else Admitting);
        } else {
          ReplyingWeight(x, s, i, dead, looping);
        }
      case Admitting => AdmitWeight(x, c, s, i, w);
      case Looping => WaitPassWeight(x, c, s, i, w);
      case Expiring => AnswerWeight(x, s, i, Expired);
      case Shedding => AnswerWeight(x, s, i, Shed);
      case Asleep =>
      case Returned =>
    }
  }

  lemma PopWeight(x: int, c: Config, s: State, i: nat)
    requires i < |s.workers| && s.workers[i].Popping?
    ensures Weight(x, Pop(c, s, i)) == Weight(x, s)
  {
    var dead := Dead(c, s.now, s.q);
    var e := Expire(c, s);
    ExpireWeight(x, c, s);
    if e.q != [] {
      var t := e.q[0];
      var f := e.(q := e.q[1..], popped := e.popped + [t]);
      InListTail(x, e.q);
      BroadcastKeeps(x, f);
      SetWorkerWeight(x, Broadcast(f), i, Clearing(dead, Run(t)));
    } else {
      SetWorkerWeight(x, e, i, Clearing(dead, Quit));
      SetWorkerWeight(x, e, i, Clearing(dead, Again));
      SetWorkerWeight(x, e, i, Dozing);
    }
  }

  lemma WorkWeight(x: int, c: Config, s: State, i: nat)
    requires Enabled(c, s, Work(i))
    ensures Weight(x, WorkStep(c, s, i)) == Weight(x, s)
  {
    match s.workers[i] {
      case Popping => PopWeight(x, c, s, i);
      case Clearing(dead, next) =>
        if dead != [] {
          ClearingWeight(x, s, i, dead, next);
        } else {
          SetWorkerWeight(x, s, i, WorkStep(c, s, i).workers[i]);
        }
      case Running(t) => RunningWeight(x, s, i, t, if Late(c, t, s.now) then Expired else Evaluated);
      case Dozing =>
      case Left_ =>
    }
  }

  lemma ClearingWeight(x: int, s: State, i: nat, dead: seq<Task>, next: Then)
    requires i < |s.workers| && s.workers[i] == Clearing(dead, next) && dead != []
    ensures Weight(x, SetWorker(Reply(s, dead[0].id, Expired), i, Clearing(dead[1..], next))) == Weight(x, s)
  {
    ReplyWeight(x, s, dead[0].id, Expired);
    SetWorkerWeight(x, Reply(s, dead[0].id, Expired), i, Clearing(dead[1..], next));
    InListTail(x, dead);
  }

  lemma RunningWeight(x: int, s: State, i: nat, t: Task, v: Verdict)
    requires i < |s.workers| && s.workers[i] == Running(t)
    ensures Weight(x, SetWorker(Reply(s, t.id, v), i, Popping)) == Weight(x, s)
  {
    ReplyWeight(x, s, t.id, v);
    SetWorkerWeight(x, Reply(s, t.id, v), i, Popping);
  }

  lemma SweepWeight(x: int, c: Config, s: State)
    ensures Weight(x, SweepStep(c, s)) == Weight(x, s)
  {
    match s.sweeper {
      case Ticking => if Dead(c, s.now, s.q) != [] { StartSweepWeight(x, c, s); }
      case Sweeping(dead) => if dead != [] { SweepingWeight(x, s, dead); }
      case Stopped =>
    }
  }

  lemma StartSweepWeight(x: int, c: Config, s: State)
    requires s.sweeper.Ticking?
    ensures Weight(x, Expire(c, s).(sweeper := Sweeping(Dead(c, s.now, s.q)))) == Weight(x, s)
  {
    var e := Expire(c, s);
    ExpireWeight(x, c, s);
    assert e.sweeper == s.sweeper;
  }

  lemma SweepingWeight(x: int, s: State, dead: seq<Task>)
    requires s.sweeper == Sweeping(dead) && dead != []
    ensures Weight(x, Reply(s, dead[0].id, Expired).(sweeper := Sweeping(dead[1..]))) == Weight(x, s)
  {
    ReplyWeight(x, s, dead[0].id, Expired);
    InListTail(x, dead);
  }

  /** Conservation: no step makes or loses a task; a call adds one. */
  lemma NextWeight(x: int, c: Config, s: State, step: Step)
    requires Enabled(c, s, step)
    ensures Weight(x, Next(c, s, step)) == Weight(x, s) + (if step.Call? then Unit(x, |s.subs|) else 0)
  {
    match step {
      case Advance(i, w) => AdvanceWeight(x, c, s, i, w);
      case Work(i) => WorkWeight(x, c, s, i);
      case Sweep => SweepWeight(x, c, s);
      case Timer(i) =>
        SumUpdate(SubWeigher(x), s.subs, i, s.subs[i].(alarm := Fired));
        BroadcastKeeps(x, s.(subs := s.subs[i := s.subs[i].(alarm := Fired)]));
      case Close => BroadcastKeeps(x, s.(closed := true));
      case Call(d) =>
        var s' := Submitted(s, d);
        assert s'.subs[..|s.subs|] == s.subs;
      case Tick(t) =>
      case SweeperStops =>
      case StopSignal =>
    }
  }

  /** Each submitted task is in exactly one place, and there are no others. */
  predicate Accounted(s: State, x: int) {
    Weight(x, s) == if x < 0 then |s.subs| else if x < |s.subs| then 1 else 0
  }

  lemma ReachableAccounted(c: Config, s: State, n: nat, x: int)
    requires Reachable(c, s, n)
    ensures Accounted(s, x)
  {
    var inv := (p: State) => Accounted(p, x);
    forall now ensures inv(Start(c, now)) {
      SumZero(WorkerWeigher(x), Start(c, now).workers);
    }
    forall p, step | inv(p) && Enabled(c, p, step) ensures inv(Next(c, p, step)) {
      NextWeight(x, c, p, step);
    }
    EveryReachable(c, inv, s, n);
  }

  // ---- exactly one answer ----

  function Answers(log: seq<Answer>, v: Verdict): nat {
    if log == [] then 0 else Answers(log[..|log| - 1], v) + (if log[|log| - 1].verdict == v then 1 else 0)
  }

  lemma {:induction false} AnswersSplit(log: seq<Answer>)
    ensures Answers(log, Evaluated) + Answers(log, Shed) + Answers(log, Expired) == |log|
    ensures InLog(-1, log) == |log|
  {
    if log != [] {
      AnswersSplit(log[..|log| - 1]);
    }
  }

  predicate CountersAgree(s: State) {
    s.shed == Answers(s.log, Shed) && s.expired == Answers(s.log, Expired)
  }

  /** The log and the two counters. */
  datatype Tally = Tally(log: seq<Answer>, shed: nat, expired: nat)

  function TallyOf(s: State): Tally {
    Tally(s.log, s.shed, s.expired)
  }

  /** A step leaves them alone, or adds one answer with its counter. */
  ghost predicate Logged(s: State, s': State) {
    TallyOf(s') == TallyOf(s) || exists id, v :: TallyOf(s') == TallyOf(Reply(s, id, v))
  }

  lemma ExpireLogs(c: Config, s: State)
    ensures TallyOf(Expire(c, s)) == TallyOf(s)
  {
  }

  lemma WaitPassLogs(c: Config, s: State, i: nat, w: Woken)
    requires i < |s.subs|
    ensures TallyOf(WaitPass(c, s, i, w)) == TallyOf(s)
  {
    ExpireLogs(c, s);
  }

  lemma AdvanceLogged(c: Config, s: State, i: nat, w: Woken)
    requires Enabled(c, s, Advance(i, w))
    ensures Logged(s, AdvanceSub(c, s, i, w))
  {
    var sub := s.subs[i];
    match sub.at {
      case Collecting => ExpireLogs(c, s);
      case Replying(dead, looping) =>
        if dead != [] { assert TallyOf(AdvanceSub(c, s, i, w)) == TallyOf(Reply(s, dead[0].id, Expired)); }
      case Looping => WaitPassLogs(c, s, i, w);
      case Expiring => assert TallyOf(AdvanceSub(c, s, i, w)) == TallyOf(Reply(s, sub.task.id, Expired));
      case Shedding => assert TallyOf(AdvanceSub(c, s, i, w)) == TallyOf(Reply(s, sub.task.id, Shed));
      case _ =>
    }
  }

  lemma WorkLogged(c: Config, s: State, i: nat)
    requires Enabled(c, s, Work(i))
    ensures Logged(s, WorkStep(c, s, i))
  {
    match s.workers[i] {
      case Popping => ExpireLogs(c, s);
      case Clearing(dead, next) =>
        if dead != [] { assert TallyOf(WorkStep(c, s, i)) == TallyOf(Reply(s, dead[0].id, Expired)); }
      case Running(t) =>
        var v := if Late(c, t, s.now) then Expired else Evaluated;
        assert TallyOf(WorkStep(c, s, i)) == TallyOf(Reply(s, t.id, v));
      case _ =>
    }
  }

  lemma SweepLogged(c: Config, s: State)
    ensures Logged(s, SweepStep(c, s))
  {
    ExpireLogs(c, s);
    if s.sweeper.Sweeping? && s.sweeper.dead != [] {
      assert TallyOf(SweepStep(c, s)) == TallyOf(Reply(s, s.sweeper.dead[0].id, Expired));
    }
  }

  lemma NextLogged(c: Config, s: State, step: Step)
    requires Enabled(c, s, step)
    ensures Logged(s, Next(c, s, step))
  {
    match step {
      case Advance(i, w) => AdvanceLogged(c, s, i, w);
      case Work(i) => WorkLogged(c, s, i);
      case Sweep => SweepLogged(c, s);
      case _ =>
    }
  }

  lemma ReachableCounters(c: Config, s: State, n: nat)
    requires Reachable(c, s, n)
    ensures CountersAgree(s)
  {
    var inv := (p: State) => CountersAgree(p);
    forall p, step | inv(p) && Enabled(c, p, step) ensures inv(Next(c, p, step)) {
      NextLogged(c, p, step);
      LoggedAgrees(p, Next(c, p, step));
    }
    EveryReachable(c, inv, s, n);
  }

  lemma LoggedAgrees(p: State, s: State)
    requires CountersAgree(p) && Logged(p, s)
    ensures CountersAgree(s)
  {
    if s.log != p.log {
      assert s.log[..|s.log| - 1] == p.log;
    }
  }

  /** Both parts of `Close` are done, every `Submit` has returned, every worker has left and the sweeper has
      stopped: `Close` returns. */
  predicate Finished(s: State) {
    && s.stopping && s.closed
    && (forall i :: 0 <= i < |s.subs| ==> s.subs[i].at.Returned?)
    && (forall i :: 0 <= i < |s.workers| ==> s.workers[i].Left_?)
    && s.sweeper.Stopped?
  }

  /** Exactly one answer: in every interleaving with at least one worker, once `Close` and every `Submit`
      have returned, the queue is empty, the handler was called exactly once for each submitted task and
      for nothing else, and the submitted tasks are the evaluated, the shed and the expired ones. */
  lemma ExactlyOneAnswer(c: Config, s: State, n: nat)
    requires c.depth >= 1 && c.workers >= 1 && Reachable(c, s, n) && Finished(s)
    ensures s.q == []
    ensures forall id :: 0 <= id < |s.subs| ==> InLog(id, s.log) == 1
    ensures forall id :: id >= |s.subs| ==> InLog(id, s.log) == 0
    ensures |s.log| == |s.subs|
    ensures |s.subs| == Answers(s.log, Evaluated) + s.shed + s.expired
  {
    ReachableWakeful(c, s, n);
    assert s.q == [] by {
      assert Leaving(s.workers[0]);
    }
    forall x ensures InLog(x, s.log) == if x < 0 then |s.subs| else if x < |s.subs| then 1 else 0 {
      ReachableAccounted(c, s, n, x);
      SumZero(SubWeigher(x), s.subs);
      SumZero(WorkerWeigher(x), s.workers);
    }
    AnswersSplit(s.log);
    ReachableCounters(c, s, n);
  }

  /** At any moment no task has been answered twice. */
  lemma NeverTwice(c: Config, s: State, n: nat, id: nat)
    requires Reachable(c, s, n)
    ensures InLog(id, s.log) <= 1
  {
    ReachableAccounted(c, s, n, id);
  }

  /** A task in time for its pool at time 0. */
  function Lone(c: Config): Task {
    Task(0, c.minBudget + c.reserve, 0)
  }

  /** A pool without workers, with one submitter. */
  function Alone(c: Config, at: SubmitAt, q: seq<Task>): State {
    State(0, q, false, false, [Submitter(Lone(c), at, Unset)], [], Ticking, [], 0, 0, q, [], [])
  }

  lemma AloneReplying(c: Config) returns (n: nat)
    requires c.workers == 0
    ensures Reachable(c, Alone(c, Replying([], false), []), n)
  {
    var s0 := Start(c, 0);
    assert Reachable(c, s0, 0);
    n := StepReaches(c, s0, 0, Call(Lone(c).deadline), Alone(c, Entering, []));
    n := StepReaches(c, Alone(c, Entering, []), n, Advance(0, NoOne), Alone(c, Collecting, []));
    n := StepReaches(c, Alone(c, Collecting, []), n, Advance(0, NoOne), Alone(c, Replying([], false), []));
  }

  lemma AloneAdmitting(c: Config) returns (n: nat)
    requires c.workers == 0
    ensures Reachable(c, Alone(c, Admitting, []), n)
  {
    n := AloneReplying(c);
    n := StepReaches(c, Alone(c, Replying([], false), []), n, Advance(0, NoOne), Alone(c, Admitting, []));
  }

  lemma AloneQueued(c: Config) returns (n: nat)
    requires c.workers == 0 && c.depth >= 1
    ensures Reachable(c, Alone(c, Returned, [Lone(c)]), n)
  {
    n := AloneAdmitting(c);
    n := StepReaches(c, Alone(c, Admitting, []), n, Advance(0, NoOne), Alone(c, Returned, [Lone(c)]));
  }

  lemma AloneStopping(c: Config) returns (n: nat)
    requires c.workers == 0 && c.depth >= 1
    ensures Reachable(c, Alone(c, Returned, [Lone(c)]).(stopping := true), n)
  {
    n := AloneQueued(c);
    var p := Alone(c, Returned, [Lone(c)]);
    n := StepReaches(c, p, n, StopSignal, p.(stopping := true));
  }

  /** Without a worker the claim fails: `Close` and everything else has returned and a task is still queued. */
  lemma NoWorkerLeavesTask(c: Config) returns (s: State, n: nat)
    requires c.workers == 0 && c.depth >= 1
    ensures Reachable(c, s, n) && Finished(s) && s.q != []
  {
    n := AloneStopping(c);
    var p := Alone(c, Returned, [Lone(c)]).(stopping := true);
    var q := p.(sweeper := Stopped);
    n := StepReaches(c, p, n, SweeperStops, q);
    s := q.(closed := true);
    assert Broadcast(s).subs == s.subs && Broadcast(s).workers == s.workers;
    n := StepReaches(c, q, n, PoolRun.Close, s);
  }

  ghost predicate LeavesNone(c: Config) {
    forall s, n: nat :: Reachable(c, s, n) ==> EmptyIfFinished(s)
  }

  predicate EmptyIfFinished(s: State) {
    Finished(s) ==> s.q == []
  }

  /** Whatever its other settings, a pool answers everything before it has finished if and only if it has
      a worker. */
  lemma AnswersAllIffWorkers(c: Config)
    requires c.depth >= 1
    ensures LeavesNone(c) <==> c.workers >= 1
  {
    if c.workers == 0 {
      var s, n := NoWorkerLeavesTask(c);
      assert !EmptyIfFinished(s);
    } else {
      forall s, n: nat | Reachable(c, s, n) ensures EmptyIfFinished(s) {
        if Finished(s) { ExactlyOneAnswer(c, s, n); }
      }
    }
  }

  lemma StepReaches(c: Config, p: State, n: nat, step: Step, s: State) returns (m: nat)
    requires Reachable(c, p, n) && Enabled(c, p, step) && s == Next(c, p, step)
    ensures Reachable(c, s, m)
  {
    m := n + 1;
  }

  // ---- order ----

  /** The queue and its three records. */
  datatype Line = Line(popped: seq<Task>, q: seq<Task>, enqueued: seq<Task>, dropped: seq<Task>)

  function LineOf(s: State): Line {
    Line(s.popped, s.q, s.enqueued, s.dropped)
  }

  /** What was popped and what is queued, in order, is a part of what was enqueued; the rest was dropped, and
      everything dropped is late. */
  ghost predicate Orderly(c: Config, now: int, l: Line) {
    && Subsequence(l.popped + l.q, l.enqueued)
    && multiset(l.popped + l.q) + multiset(l.dropped) == multiset(l.enqueued)
    && (forall i :: 0 <= i < |l.dropped| ==> Late(c, l.dropped[i], now))
  }

  function LineExpired(c: Config, now: int, l: Line): Line {
    l.(q := Kept(c, now, l.q), dropped := l.dropped + Dead(c, now, l.q))
  }

  function LineAppended(l: Line, t: Task): Line {
    l.(q := l.q + [t], enqueued := l.enqueued + [t])
  }

  function LinePopped(l: Line): Line
    requires l.q != []
  {
    l.(popped := l.popped + [l.q[0]], q := l.q[1..])
  }

  /** A step leaves them alone, drops the expired, appends one task, or drops the expired and takes one from
      the front. */
  ghost predicate LineStep(c: Config, s: State, s': State) {
    var l, e := LineOf(s), LineExpired(c, s.now, LineOf(s));
    || LineOf(s') == l
    || (s'.now == s.now && LineOf(s') == e)
    || (exists t :: LineOf(s') == LineAppended(l, t))
    || (s'.now == s.now && e.q != [] && LineOf(s') == LinePopped(e))
  }

  lemma EnqueueLine(s: State, t: Task, w: Woken)
    requires CanWake(s, w)
    ensures LineOf(Enqueue(s, t, w)) == LineAppended(LineOf(s), t)
    ensures Enqueue(s, t, w).now == s.now
  {
  }

  lemma ExpireLine(c: Config, s: State)
    ensures LineOf(Expire(c, s)) == LineExpired(c, s.now, LineOf(s)) && Expire(c, s).now == s.now
  {
  }

  lemma WaitPassLine(c: Config, s: State, i: nat, w: Woken)
    requires i < |s.subs|
    ensures LineStep(c, s, WaitPass(c, s, i, w)) && WaitPass(c, s, i, w).now == s.now
  {
    ExpireLine(c, s);
    if CanWake(s, w) { EnqueueLine(s, s.subs[i].task, w); }
  }

  lemma AdvanceLine(c: Config, s: State, i: nat, w: Woken)
    requires Enabled(c, s, Advance(i, w))
    ensures LineStep(c, s, AdvanceSub(c, s, i, w)) && AdvanceSub(c, s, i, w).now == s.now
  {
    var sub := s.subs[i];
    match sub.at {
      case Collecting => ExpireLine(c, s);
      case Admitting =>
        if CanWake(s, w) { EnqueueLine(s, sub.task, w); }
      case Looping => WaitPassLine(c, s, i, w);
      case _ =>
    }
  }

  lemma WorkLine(c: Config, s: State, i: nat)
    requires Enabled(c, s, Work(i))
    ensures LineStep(c, s, WorkStep(c, s, i)) && WorkStep(c, s, i).now == s.now
  {
    ExpireLine(c, s);
  }

  lemma NextLine(c: Config, s: State, step: Step)
    requires Enabled(c, s, step)
    ensures LineStep(c, s, Next(c, s, step)) && s.now <= Next(c, s, step).now
  {
    match step {
      case Advance(i, w) => AdvanceLine(c, s, i, w);
      case Work(i) => WorkLine(c, s, i);
      case Sweep => ExpireLine(c, s);
      case _ =>
    }
  }

  /** Dropping what is late from the queue. */
  lemma OrderlyExpired(c: Config, now: int, l: Line)
    requires Orderly(c, now, l)
    ensures Orderly(c, now, LineExpired(c, now, l))
  {
    var kept, dead := Kept(c, now, l.q), Dead(c, now, l.q);
    Partition(c, now, l.q);
    PartitionStable(c, now, l.q);
    SubsequencePrefixed(l.popped, kept, l.q);
    SubsequenceTrans(l.popped + kept, l.popped + l.q, l.enqueued);
    MovedOver(l.popped, l.q, kept, dead, l.dropped);
  }

  lemma MovedOver(popped: seq<Task>, q: seq<Task>, kept: seq<Task>, dead: seq<Task>, dropped: seq<Task>)
    requires multiset(kept) + multiset(dead) == multiset(q)
    ensures multiset(popped + kept) + multiset(dropped + dead) == multiset(popped + q) + multiset(dropped)
  {
  }

  lemma OrderlyAppended(c: Config, now: int, l: Line, t: Task)
    requires Orderly(c, now, l)
    ensures Orderly(c, now, LineAppended(l, t))
  {
    var line := l.popped + l.q;
    SubsequenceSnoc(line, l.enqueued, t);
    assert l.popped + (l.q + [t]) == line + [t];
    assert multiset(line + [t]) == multiset(line) + multiset{t};
  }

  lemma OrderlyPopped(c: Config, now: int, l: Line)
    requires Orderly(c, now, l) && l.q != []
    ensures Orderly(c, now, LinePopped(l))
  {
    assert (l.popped + [l.q[0]]) + l.q[1..] == l.popped + l.q;
  }

  lemma OrderlyLater(c: Config, now: int, now': int, l: Line)
    requires Orderly(c, now, l) && now <= now'
    ensures Orderly(c, now', l)
  {
  }

  lemma OrderlyStep(c: Config, s: State, s': State)
    requires Orderly(c, s.now, LineOf(s)) && LineStep(c, s, s') && s.now <= s'.now
    ensures Orderly(c, s'.now, LineOf(s'))
  {
    var l := LineOf(s);
    var e := LineExpired(c, s.now, l);
    OrderlyExpired(c, s.now, l);
    if e.q != [] { OrderlyPopped(c, s.now, e); }
    if t :| LineOf(s') == LineAppended(l, t) { OrderlyAppended(c, s.now, l, t); }
    OrderlyLater(c, s.now, s'.now, LineOf(s'));
  }

  /** First in, first out: in every interleaving the tasks handed to evaluation, followed by those still
      queued, are the enqueued tasks in order, and each of the others was dropped because it was late. */
  lemma EvaluationInOrder(c: Config, s: State, n: nat)
    requires Reachable(c, s, n)
    ensures Subsequence(s.popped + s.q, s.enqueued)
    ensures multiset(s.popped + s.q) + multiset(s.dropped) == multiset(s.enqueued)
    ensures forall i :: 0 <= i < |s.dropped| ==> Late(c, s.dropped[i], s.now)
  {
    var inv := (p: State) => Orderly(c, p.now, LineOf(p));
    forall p, step | inv(p) && Enabled(c, p, step) ensures inv(Next(c, p, step)) {
      NextLine(c, p, step);
      OrderlyStep(c, p, Next(c, p, step));
    }
    EveryReachable(c, inv, s, n);
  }

  // ---- a closed pool drains ----

  /** What a new call adds to what is left to do. */
  const CALL_RANK := 6

  function RankSub(sub: Submitter): nat {
    (if sub.alarm.Set? then 1 else 0) +
    match sub.at
    case Entering => CALL_RANK
    case Collecting => 5
    case Replying(dead, _) => 4 + |dead|
    case Admitting => 3
    case Asleep => 2
    case Looping => 2
    case Expiring => 1
    case Shedding => 1
    case Returned => 0
  }

  function RankWorker(at: WorkerAt): nat {
    match at
    case Popping => 3
    case Dozing => 3
    case Clearing(dead, next) => |dead| + (match next case Run(_) => 5 case Again => 4 case Quit => 1)
    case Running(_) => 4
    case Left_ => 0
  }

  function RankSweeper(at: SweeperAt): nat {
    match at
    case Ticking => 2
    case Sweeping(dead) => 3 + |dead|
    case Stopped => 0
  }

  function SubRanker(): Submitter -> nat {
    sub => RankSub(sub)
  }

  function WorkerRanker(): WorkerAt -> nat {
    at => RankWorker(at)
  }

  /** What a closed pool still has to do. */
  function Rank(s: State): nat {
    4 * |s.q| + Sum(SubRanker(), s.subs) + Sum(WorkerRanker(), s.workers) + RankSweeper(s.sweeper)
  }

  /** Steps that get something done: all but the clock, new calls, the two parts of `Close`, and a sweep
      that finds nothing. */
  predicate Productive(c: Config, s: State, step: Step) {
    match step
    case Advance(_, _) => true
    case Work(_) => true
    case Timer(_) => true
    case SweeperStops => true
    case Sweep => !s.sweeper.Ticking? || Dead(c, s.now, s.q) != []
    case Tick(_) => false
    case Call(_) => false
    case StopSignal => false
    case Close => false
  }

  lemma BroadcastRank(s: State)
    ensures Rank(Broadcast(s)) == Rank(s)
    ensures forall i :: 0 <= i < |s.subs| ==> RankSub(Broadcast(s).subs[i]) == RankSub(s.subs[i])
    ensures forall i :: 0 <= i < |s.workers| ==> RankWorker(Broadcast(s).workers[i]) == RankWorker(s.workers[i])
  {
    SumSame(SubRanker(), Broadcast(s).subs, s.subs);
    SumSame(WorkerRanker(), Broadcast(s).workers, s.workers);
  }

  lemma ExpireRank(c: Config, s: State)
    ensures Rank(Expire(c, s)) + 4 * |Dead(c, s.now, s.q)| == Rank(s)
    ensures Expire(c, s).sweeper == s.sweeper && Expire(c, s).closed == s.closed
    ensures forall i :: 0 <= i < |s.subs| ==> RankSub(Expire(c, s).subs[i]) == RankSub(s.subs[i])
    ensures forall i :: 0 <= i < |s.subs| ==> Expire(c, s).subs[i].alarm == s.subs[i].alarm
    ensures forall i :: 0 <= i < |s.workers| ==> RankWorker(Expire(c, s).workers[i]) == RankWorker(s.workers[i])
  {
    Partition(c, s.now, s.q);
    BroadcastRank(s.(q := Kept(c, s.now, s.q), dropped := s.dropped + Dead(c, s.now, s.q)));
  }

  lemma SetSubRank(s: State, i: nat, at: SubmitAt)
    requires i < |s.subs|
    ensures Rank(SetSub(s, i, at)) + RankSub(s.subs[i]) == Rank(s) + RankSub(s.subs[i].(at := at))
  {
    SumUpdate(SubRanker(), s.subs, i, s.subs[i].(at := at));
  }

  lemma SetWorkerRank(s: State, i: nat, at: WorkerAt)
    requires i < |s.workers|
    ensures Rank(SetWorker(s, i, at)) + RankWorker(s.workers[i]) == Rank(s) + RankWorker(at)
  {
    SumUpdate(WorkerRanker(), s.workers, i, at);
  }

  lemma CollectDrains(c: Config, s: State, i: nat)
    requires s.closed && i < |s.subs| && s.subs[i].at.Collecting?
    ensures var s' := SetSub(Expire(c, s), i, Replying(Dead(c, s.now, s.q), false)); Rank(s') < Rank(s) && s'.closed
  {
    ExpireRank(c, s);
    SetSubRank(Expire(c, s), i, Replying(Dead(c, s.now, s.q), false));
  }

  lemma ReplySubRank(s: State, i: nat, id: nat, v: Verdict, at: SubmitAt)
    requires i < |s.subs|
    ensures Rank(SetSub(Reply(s, id, v), i, at)) + RankSub(s.subs[i]) == Rank(s) + RankSub(s.subs[i].(at := at))
  {
    SetSubRank(Reply(s, id, v), i, at);
  }

  lemma AdvanceDrains(c: Config, s: State, i: nat, w: Woken)
    requires s.closed && Enabled(c, s, Advance(i, w))
    ensures Rank(AdvanceSub(c, s, i, w)) < Rank(s) && AdvanceSub(c, s, i, w).closed
  {
    match s.subs[i].at {
      case Entering => SetSubRank(s, i, if Late(c, s.subs[i].task, s.now) then Expiring else Collecting);
      case Collecting => CollectDrains(c, s, i);
      case Replying(dead, looping) =>
        if dead == [] {
          SetSubRank(s, i, if looping then Looping else Admitting);
        } else {
          ReplySubRank(s, i, dead[0].id, Expired, Replying(dead[1..], looping));
        }
      case Admitting => SetSubRank(s, i, Expiring);
      case Looping => SetSubRank(s, i, Expiring);
      case Expiring => ReplySubRank(s, i, s.subs[i].task.id, Expired, Returned);
      case Shedding => ReplySubRank(s, i, s.subs[i].task.id, Shed, Returned);
      case Asleep =>
      case Returned =>
    }
  }

  lemma PopDrains(c: Config, s: State, i: nat)
    requires s.closed && i < |s.workers| && s.workers[i].Popping?
    ensures Rank(Pop(c, s, i)) < Rank(s) && Pop(c, s, i).closed
  {
    var dead := Dead(c, s.now, s.q);
    var e := Expire(c, s);
    ExpireRank(c, s);
    if e.q != [] {
      var f := e.(q := e.q[1..], popped := e.popped + [e.q[0]]);
      BroadcastRank(f);
      SetWorkerRank(Broadcast(f), i, Clearing(dead, Run(e.q[0])));
    } else {
      SetWorkerRank(e, i, Clearing(dead, Quit));
    }
  }

  lemma WorkDrains(c: Config, s: State, i: nat)
    requires s.closed && Enabled(c, s, Work(i))
    ensures Rank(WorkStep(c, s, i)) < Rank(s) && WorkStep(c, s, i).closed
  {
    match s.workers[i] {
      case Popping => PopDrains(c, s, i);
      case Clearing(dead, next) =>
        if dead != [] {
          SetWorkerRank(Reply(s, dead[0].id, Expired), i, Clearing(dead[1..], next));
        } else {
          SetWorkerRank(s, i, WorkStep(c, s, i).workers[i]);
        }
      case Running(t) =>
        SetWorkerRank(Reply(s, t.id, if Late(c, t, s.now) then Expired else Evaluated), i, Popping);
      case Dozing =>
      case Left_ =>
    }
  }

  /** After `Close` every step that gets something done lowers the rank. */
  lemma ProductiveDrains(c: Config, s: State, step: Step)
    requires s.closed && Enabled(c, s, step) && Productive(c, s, step)
    ensures Rank(Next(c, s, step)) < Rank(s) && Next(c, s, step).closed
  {
    match step {
      case Advance(i, w) => AdvanceDrains(c, s, i, w);
      case Work(i) => WorkDrains(c, s, i);
      case Sweep => SweepDrains(c, s);
      case Timer(i) => TimerDrains(s, i);
      case SweeperStops =>
    }
  }

  lemma SweepDrains(c: Config, s: State)
    requires s.closed && !s.sweeper.Stopped? && (s.sweeper.Ticking? ==> Dead(c, s.now, s.q) != [])
    ensures Rank(SweepStep(c, s)) < Rank(s) && SweepStep(c, s).closed
  {
    ExpireRank(c, s);
  }

  lemma TimerDrains(s: State, i: nat)
    requires s.closed && i < |s.subs| && s.subs[i].alarm.Set?
    ensures var s' := Broadcast(s.(subs := s.subs[i := s.subs[i].(alarm := Fired)])); Rank(s') < Rank(s) && s'.closed
  {
    SumUpdate(SubRanker(), s.subs, i, s.subs[i].(alarm := Fired));
    BroadcastRank(s.(subs := s.subs[i := s.subs[i].(alarm := Fired)]));
  }

  /** Of the other steps only a new call raises it. */
  lemma OthersKeepRank(c: Config, s: State, step: Step)
    requires s.closed && Enabled(c, s, step) && !Productive(c, s, step)
    ensures Rank(Next(c, s, step)) == Rank(s) + (if step.Call? then CALL_RANK else 0) && Next(c, s, step).closed
  {
    if step.Call? {
      var subs := Next(c, s, step).subs;
      assert subs[..|subs| - 1] == s.subs;
    }
  }

  /** The steps can be taken one after the other from `s`. */
  predicate Can(c: Config, s: State, steps: seq<Step>)
    decreases |steps|
  {
    steps == [] || (Enabled(c, s, steps[0]) && Can(c, Next(c, s, steps[0]), steps[1..]))
  }

  function End(c: Config, s: State, steps: seq<Step>): State
    requires Can(c, s, steps)
    decreases |steps|
  {
    if steps == [] then s else End(c, Next(c, s, steps[0]), steps[1..])
  }

  /** How many of the steps get something done. */
  function Gains(c: Config, s: State, steps: seq<Step>): nat
    requires Can(c, s, steps)
    decreases |steps|
  {
    if steps == [] then 0
    else (if Productive(c, s, steps[0]) then 1 else 0) + Gains(c, Next(c, s, steps[0]), steps[1..])
  }

  function Calls(steps: seq<Step>): nat {
    if steps == [] then 0 else (if steps[0].Call? then 1 else 0) + Calls(steps[1..])
  }

  /** A closed pool drains: in every run from a closed state the steps that get something done are at most the
      rank of that state, and a constant more for every later call. */
  lemma {:induction false} ClosedPoolDrains(c: Config, s: State, steps: seq<Step>)
    requires s.closed && Can(c, s, steps)
    ensures Gains(c, s, steps) + Rank(End(c, s, steps)) <= Rank(s) + CALL_RANK * Calls(steps)
    decreases |steps|
  {
    if steps != [] {
      if Productive(c, s, steps[0]) {
        ProductiveDrains(c, s, steps[0]);
      } else {
        OthersKeepRank(c, s, steps[0]);
      }
      ClosedPoolDrains(c, Next(c, s, steps[0]), steps[1..]);
    }
  }

  /** And until `Close` returns there is always such a step to take: the pool cannot be stuck. */
  lemma ClosedPoolIsNotStuck(c: Config, s: State, n: nat)
    requires c.depth >= 1 && Reachable(c, s, n) && s.closed && s.stopping && !Finished(s)
    ensures exists step :: Enabled(c, s, step) && Productive(c, s, step)
  {
    ReachableWakeful(c, s, n);
    if i :| 0 <= i < |s.subs| && !s.subs[i].at.Returned? {
      assert Enabled(c, s, Advance(i, NoOne)) && Productive(c, s, Advance(i, NoOne));
    } else if i :| 0 <= i < |s.workers| && !s.workers[i].Left_? {
      assert Enabled(c, s, Work(i)) && Productive(c, s, Work(i));
    } else if s.sweeper.Ticking? {
      assert Enabled(c, s, SweeperStops) && Productive(c, s, SweeperStops);
    } else {
      assert Enabled(c, s, Sweep) && Productive(c, s, Sweep);
    }
  }

  /** So `Close` can always return: from every reachable state after it has closed the pool, some run of at most
      the rank's number of steps, none of them a new call, finishes. */
  lemma {:induction false} CloseReturns(c: Config, s: State, n: nat) returns (steps: seq<Step>)
    requires c.depth >= 1 && Reachable(c, s, n) && s.closed && s.stopping
    ensures Can(c, s, steps) && Finished(End(c, s, steps)) && |steps| <= Rank(s) && Calls(steps) == 0
    decreases Rank(s)
  {
    if Finished(s) {
      steps := [];
    } else {
      ClosedPoolIsNotStuck(c, s, n);
      var step :| Enabled(c, s, step) && Productive(c, s, step);
      ProductiveDrains(c, s, step);
      KeepsStopping(c, s, step);
      var m := StepReaches(c, s, n, step, Next(c, s, step));
      var rest := CloseReturns(c, Next(c, s, step), m);
      steps := [step] + rest;
      assert steps[1..] == rest;
    }
  }

  lemma KeepsStopping(c: Config, s: State, step: Step)
    requires Enabled(c, s, step) && s.stopping
    ensures Next(c, s, step).stopping
  {
  }
}
