/** No wake-up is lost: the invariant of the pool's one condition variable, kept by every step of every goroutine. */
module PoolWake {
  import opened Queue
  import opened PoolRun

  // ---- tools ----

  predicate AnyDozing(ws: seq<WorkerAt>) {
    exists i :: 0 <= i < |ws| && ws[i].Dozing?
  }

  /** Workers on their way to the queue. */
  function Poppers(ws: seq<WorkerAt>): (n: nat)
    ensures n <= |ws|
  {
    if ws == [] then 0
    else Poppers(ws[..|ws| - 1]) + (if ws[|ws| - 1].Popping? then 1 else 0)
  }

  lemma {:induction false} PoppersUpdate(ws: seq<WorkerAt>, i: nat, at: WorkerAt)
    requires i < |ws|
    ensures Poppers(ws[i := at]) ==
            Poppers(ws) - (if ws[i].Popping? then 1 else 0) + (if at.Popping? then 1 else 0)
  {
    var n := |ws| - 1;
    var ws' := ws[i := at];
    if i < n {
      PoppersUpdate(ws[..n], i, at);
      assert ws'[..n] == ws[..n][i := at];
    } else {
      assert ws'[..n] == ws[..n];
    }
  }

  lemma {:induction false} PoppersSome(ws: seq<WorkerAt>)
    requires Poppers(ws) > 0
    ensures exists i :: 0 <= i < |ws| && ws[i].Popping?
  {
    var n := |ws| - 1;
    if !ws[n].Popping? {
      PoppersSome(ws[..n]);
      var i :| 0 <= i < n && ws[..n][i].Popping?;
      assert ws[i].Popping?;
    }
  }

  lemma {:induction false} NoDeadKeepsAll(c: Config, now: int, q: seq<Task>)
    requires Dead(c, now, q) == []
    ensures Kept(c, now, q) == q
  {
    if q != [] {
      NoDeadKeepsAll(c, now, q[..|q| - 1]);
      assert q == q[..|q| - 1] + [q[|q| - 1]];
    }
  }

  /** Nobody sleeps. */
  predicate AllAwake(s: State) {
    (forall i :: 0 <= i < |s.subs| ==> !s.subs[i].at.Asleep?) &&
    (forall i :: 0 <= i < |s.workers| ==> !s.workers[i].Dozing?)
  }

  /** Expiry either finds nothing and changes nothing, or shrinks the queue and wakes everybody. */
  lemma ExpireEffect(c: Config, s: State)
    ensures var s' := Expire(c, s);
            && |s'.subs| == |s.subs| && |s'.workers| == |s.workers|
            && s'.closed == s.closed && s'.q == Kept(c, s.now, s.q)
            && (Dead(c, s.now, s.q) == [] ==> s' == s)
            && (Dead(c, s.now, s.q) != [] ==> AllAwake(s') && |s'.q| < |s.q|)
  {
    if Dead(c, s.now, s.q) == [] {
      NothingExpires(c, s);
    } else {
      Partition(c, s.now, s.q);
    }
  }

  lemma NothingExpires(c: Config, s: State)
    requires Dead(c, s.now, s.q) == []
    ensures Expire(c, s) == s
  {
    NoDeadKeepsAll(c, s.now, s.q);
    assert s.dropped + [] == s.dropped;
  }

  // ---- no lost wakeup ----

  /** A worker that has left or will leave once it has replied. */
  predicate Leaving(at: WorkerAt) {
    at.Left_? || (at.Clearing? && at.next.Quit?)
  }

  predicate NoneLeaving(ws: seq<WorkerAt>) {
    forall i :: 0 <= i < |ws| ==> !Leaving(ws[i])
  }

  predicate NoneAsleep(subs: seq<Submitter>) {
    forall i :: 0 <= i < |subs| ==> !subs[i].at.Asleep?
  }

  /** Sleeping submitters mean a full queue; a dozing worker means that every queued task has an awake
      worker on its way; workers leave only a closed and empty pool. */
  predicate Wakeful(c: Config, s: State) {
    && c.depth >= 1 && |s.workers| == c.workers && |s.q| <= c.depth
    && (NoneAsleep(s.subs) || (|s.q| == c.depth && !s.closed))
    && (AnyDozing(s.workers) ==> |s.q| <= Poppers(s.workers) && !s.closed)
    && (NoneLeaving(s.workers) || (s.closed && s.q == []))
  }

  lemma BroadcastWakes(s: State)
    ensures NoneAsleep(Broadcast(s).subs) && !AnyDozing(Broadcast(s).workers)
    ensures NoneLeaving(s.workers) ==> NoneLeaving(Broadcast(s).workers)
    ensures |Broadcast(s).subs| == |s.subs| && |Broadcast(s).workers| == |s.workers|
  {
  }

  lemma WakefulExpire(c: Config, s: State)
    requires Wakeful(c, s)
    ensures Wakeful(c, Expire(c, s))
  {
    ExpireEffect(c, s);
    BroadcastWakes(s.(q := Kept(c, s.now, s.q), dropped := s.dropped + Dead(c, s.now, s.q)));
  }

  /** Moving a submitter; to sleep only while the queue is full. */
  lemma WakefulSub(c: Config, s: State, i: nat, sub: Submitter)
    requires Wakeful(c, s) && i < |s.subs|
    requires sub.at.Asleep? ==> |s.q| == c.depth && !s.closed
    ensures Wakeful(c, s.(subs := s.subs[i := sub]))
  {
  }

  /** Moving a worker that is not on its way to the queue. */
  lemma WakefulWorker(c: Config, s: State, i: nat, at: WorkerAt)
    requires Wakeful(c, s) && i < |s.workers| && !s.workers[i].Popping? && !at.Dozing?
    requires Leaving(at) ==> Leaving(s.workers[i])
    ensures Wakeful(c, SetWorker(s, i, at))
  {
    PoppersUpdate(s.workers, i, at);
    var ws := s.workers[i := at];
    if AnyDozing(ws) {
      var j :| 0 <= j < |ws| && ws[j].Dozing?;
      assert s.workers[j].Dozing?;
    }
    if NoneLeaving(s.workers) {
      forall j | 0 <= j < |ws| ensures !Leaving(ws[j]) {
        assert !Leaving(s.workers[j]);
      }
    }
  }

  /** The one signal of `enqueueLocked` is enough: if a worker dozes, it wakes a worker. */
  lemma WakefulEnqueue(c: Config, s: State, t: Task, w: Woken)
    requires Wakeful(c, s) && |s.q| < c.depth && !s.closed && CanWake(s, w)
    ensures Wakeful(c, Enqueue(s, t, w))
    ensures AnyDozing(s.workers) ==> w.Worker?
    ensures |Enqueue(s, t, w).subs| == |s.subs|
  {
    if w.Worker? {
      var ws := s.workers[w.i := Popping];
      PoppersUpdate(s.workers, w.i, Popping);
      if AnyDozing(ws) {
        var j :| 0 <= j < |ws| && ws[j].Dozing?;
        assert s.workers[j].Dozing?;
      }
      assert NoneLeaving(ws) by {
        forall j | 0 <= j < |ws| ensures !Leaving(ws[j]) { assert !Leaving(s.workers[j]); }
      }
    }
  }

  lemma WakefulWaitPass(c: Config, s: State, i: nat, w: Woken)
    requires Wakeful(c, s) && i < |s.subs|
    ensures Wakeful(c, WaitPass(c, s, i, w))
  {
    var sub := s.subs[i];
    if |s.q| >= c.depth && !sub.alarm.Fired? && !s.closed {
      ExpireEffect(c, s);
      WakefulExpire(c, s);
      var e := Expire(c, s);
      WakefulSub(c, e, i, e.subs[i].(at := Replying(Dead(c, s.now, s.q), true)));
      WakefulSub(c, s, i, sub.(at := Asleep));
    } else {
      WakefulSub(c, s, i, sub.(at := Expiring));
      if |s.q| < c.depth && !s.closed && CanWake(s, w) {
        WakefulEnqueue(c, s, sub.task, w);
        var e := Enqueue(s, sub.task, w);
        WakefulSub(c, e, i, e.subs[i].(at := Returned));
      }
    }
  }

  lemma WakefulAdmit(c: Config, s: State, i: nat, w: Woken)
    requires Wakeful(c, s) && i < |s.subs|
    ensures Wakeful(c, Admit(c, s, i, w))
  {
    var sub := s.subs[i];
    WakefulSub(c, s, i, sub.(at := Expiring));
    WakefulSub(c, s, i, sub.(at := Shedding));
    if !s.closed && |s.q| < c.depth && CanWake(s, w) {
      WakefulEnqueue(c, s, sub.task, w);
      var e := Enqueue(s, sub.task, w);
      WakefulSub(c, e, i, e.subs[i].(at := Returned));
    } else if !s.closed && |s.q| >= c.depth {
      WakefulSub(c, s, i, sub.(at := Looping, alarm := Set));
    }
  }

  lemma WakefulAdvance(c: Config, s: State, i: nat, w: Woken)
    requires Wakeful(c, s) && Enabled(c, s, Advance(i, w))
    ensures Wakeful(c, AdvanceSub(c, s, i, w))
  {
    var sub := s.subs[i];
    match sub.at {
      case Entering => WakefulSub(c, s, i, AdvanceSub(c, s, i, w).subs[i]);
      case Collecting =>
        WakefulExpire(c, s);
        ExpireEffect(c, s);
        var e := Expire(c, s);
        WakefulSub(c, e, i, e.subs[i].(at := Replying(Dead(c, s.now, s.q), false)));
      case Replying(dead, looping) =>
        WakefulSub(c, s, i, AdvanceSub(c, s, i, w).subs[i]);
      case Admitting => WakefulAdmit(c, s, i, w);
      case Looping => WakefulWaitPass(c, s, i, w);
      case Expiring => WakefulSub(c, s, i, sub.(at := Returned));
      case Shedding => WakefulSub(c, s, i, sub.(at := Returned));
      case Asleep =>
      case Returned =>
    }
  }

  /** A worker with all others awake. */
  lemma WakefulAwake(c: Config, s: State, i: nat, at: WorkerAt)
    requires c.depth >= 1 && |s.workers| == c.workers && |s.q| <= c.depth && i < |s.workers|
    requires NoneAsleep(s.subs) || (|s.q| == c.depth && !s.closed)
    requires !AnyDozing(s.workers) && !at.Dozing?
    requires (NoneLeaving(s.workers) && !Leaving(at)) || (s.closed && s.q == [])
    ensures Wakeful(c, SetWorker(s, i, at))
  {
    var ws := s.workers[i := at];
    forall j | 0 <= j < |ws| ensures !ws[j].Dozing? {
      assert !s.workers[j].Dozing?;
    }
    if NoneLeaving(s.workers) && !Leaving(at) {
      forall j | 0 <= j < |ws| ensures !Leaving(ws[j]) {
        assert !Leaving(s.workers[j]);
      }
    }
  }

  lemma WakefulPop(c: Config, s: State, i: nat)
    requires Wakeful(c, s) && i < |s.workers| && s.workers[i].Popping?
    ensures Wakeful(c, Pop(c, s, i))
  {
    var dead := Dead(c, s.now, s.q);
    var e := Expire(c, s);
    ExpireEffect(c, s);
    WakefulExpire(c, s);
    if e.q != [] {
      var f := e.(q := e.q[1..], popped := e.popped + [e.q[0]]);
      BroadcastWakes(f);
      WakefulAwake(c, Broadcast(f), i, Clearing(dead, Run(e.q[0])));
    } else if e.closed {
      WakefulAwake(c, e, i, Clearing(dead, Quit));
    } else if dead != [] {
      WakefulAwake(c, e, i, Clearing(dead, Again));
    } else {
      WakefulDoze(c, s, i);
    }
  }

  /** Going to sleep over an empty queue. */
  lemma WakefulDoze(c: Config, s: State, i: nat)
    requires Wakeful(c, s) && i < |s.workers| && s.q == [] && !s.closed
    ensures Wakeful(c, SetWorker(s, i, Dozing))
  {
    var ws := s.workers[i := Dozing];
    forall j | 0 <= j < |ws| ensures !Leaving(ws[j]) {
      assert j != i ==> !Leaving(s.workers[j]);
    }
  }

  lemma WakefulWork(c: Config, s: State, i: nat)
    requires Wakeful(c, s) && Enabled(c, s, Work(i))
    ensures Wakeful(c, WorkStep(c, s, i))
  {
    match s.workers[i] {
      case Popping => WakefulPop(c, s, i);
      case Clearing(dead, next) => WakefulWorker(c, s, i, WorkStep(c, s, i).workers[i]);
      case Running(t) => WakefulWorker(c, s, i, Popping);
      case Dozing =>
      case Left_ =>
    }
  }

  lemma WakefulTimer(c: Config, s: State, i: nat)
    requires Wakeful(c, s) && i < |s.subs|
    ensures Wakeful(c, Broadcast(s.(subs := s.subs[i := s.subs[i].(alarm := Fired)])))
  {
    BroadcastWakes(s.(subs := s.subs[i := s.subs[i].(alarm := Fired)]));
  }

  lemma WakefulCall(c: Config, s: State, deadline: int)
    requires Wakeful(c, s)
    ensures Wakeful(c, Submitted(s, deadline))
  {
  }

  lemma WakefulNext(c: Config, s: State, step: Step)
    requires Wakeful(c, s) && Enabled(c, s, step)
    ensures Wakeful(c, Next(c, s, step))
  {
    match step {
      case Advance(i, w) => WakefulAdvance(c, s, i, w);
      case Work(i) => WakefulWork(c, s, i);
      case Sweep => WakefulExpire(c, s);
      case Timer(i) => WakefulTimer(c, s, i);
      case Close => BroadcastWakes(s.(closed := true));
      case Call(d) => WakefulCall(c, s, d);
      case Tick(t) =>
      case SweeperStops =>
      case StopSignal =>
    }
  }

  lemma ReachableWakeful(c: Config, s: State, n: nat)
    requires c.depth >= 1 && Reachable(c, s, n)
    ensures Wakeful(c, s)
  {
    var inv := (p: State) => Wakeful(c, p);
    forall p, step | inv(p) && Enabled(c, p, step) ensures inv(Next(c, p, step)) {
      WakefulNext(c, p, step);
    }
    EveryReachable(c, inv, s, n);
  }

  /** No lost wakeup: in every interleaving the queue stays within its depth, a submitter sleeps only
      while it is full, no worker dozes while more tasks wait than workers are coming for them, and with
      at least one worker a non-empty queue never meets only sleeping workers. */
  lemma NoLostWakeup(c: Config, s: State, n: nat)
    requires c.depth >= 1 && Reachable(c, s, n)
    ensures |s.q| <= c.depth
    ensures forall i :: 0 <= i < |s.subs| && s.subs[i].at.Asleep? ==> |s.q| == c.depth && !s.closed
    ensures AnyDozing(s.workers) ==> |s.q| <= Poppers(s.workers)
    ensures c.workers > 0 && s.q != [] ==>
              exists i :: 0 <= i < |s.workers| && !s.workers[i].Dozing? && !Leaving(s.workers[i])
  {
    ReachableWakeful(c, s, n);
    if c.workers > 0 && s.q != [] {
      if AnyDozing(s.workers) {
        PoppersSome(s.workers);
      } else {
        assert !s.workers[0].Dozing? && !Leaving(s.workers[0]);
      }
    }
  }

  /** Whenever a task is enqueued while a worker dozes, the signal goes to a worker. */
  lemma SignalReachesWorker(c: Config, s: State, n: nat, w: Woken)
    requires c.depth >= 1 && Reachable(c, s, n)
    requires |s.q| < c.depth && CanWake(s, w) && AnyDozing(s.workers)
    ensures w.Worker?
  {
    ReachableWakeful(c, s, n);
  }
}
