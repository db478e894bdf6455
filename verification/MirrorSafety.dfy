/** What a mirror holds, against what the keeper held: in every run, and at every release of the set's lock, a
    ready mirror fed genuine objects has the keeper's composition at its own place. */
module MirrorSafety {
  import opened Bits
  import opened Netip
  import opened Composition
  import opened Wafs
  import opened Mirror

  // ---- the keeper ----

  /** One epoch of the keeper's history: its key, what it began with, and its changes in order. */
  datatype Epoch = Epoch(key: Bytes, base: Nets, changes: seq<seq<Record>>)

  type Keeper = map<int, Epoch>

  /** What the keeper held after `n` changes. */
  function After(e: Epoch, n: nat): Nets
    requires n <= |e.changes|
  {
    if n == 0 then e.base else Replay(After(e, n - 1), e.changes[n - 1])
  }

  predicate Knows(k: Keeper, epoch: int, n: int) {
    epoch in k && 0 <= n <= |k[epoch].changes|
  }

  predicate SoundKeeper(k: Keeper) {
    forall e :: e in k ==> ValidNets(k[e].base) && forall i :: 0 <= i < |k[e].changes| ==> Applicable(k[e].changes[i])
  }

  lemma {:induction false} AfterValid(k: Keeper, epoch: int, n: nat)
    requires SoundKeeper(k) && Knows(k, epoch, n)
    ensures ValidNets(After(k[epoch], n))
  {
    if n > 0 {
      AfterValid(k, epoch, n - 1);
      ReplayKeepsValid(After(k[epoch], n - 1), k[epoch].changes[n - 1]);
    }
  }

  ghost predicate RightHash(c: Codec, k: Keeper, epoch: int, n: nat, hash: u64)
    requires Knows(k, epoch, n)
  {
    ValidNets(After(k[epoch], n)) && hash == Fold(c.digest, k[epoch].key, After(k[epoch], n).Keys)
  }

  /** An object is genuine when what it says of `(epoch, sn)` is what the keeper held there: a snapshot
      rebuilds it from nothing, a package carries the keeper from the state before. */
  ghost predicate GenuineObject(c: Codec, k: Keeper, o: Object)
    requires Fits(o) && o.head.typ == TYPE_CIDR
  {
    var e, n := o.head.epoch, o.head.sn;
    && Applicable(Records(o))
    && (o.head.kind == KIND_SNAPSHOT ==>
         && Knows(k, e, n) && o.head.key == k[e].key
         && Replay(map[], Records(o)) == After(k[e], n)
         && RightHash(c, k, e, n, o.head.hash))
    && (o.head.kind == KIND_PACKAGE ==>
         && Knows(k, e, n) && n > 0
         && Replay(After(k[e], n - 1), Records(o)) == After(k[e], n)
         && RightHash(c, k, e, n, o.head.hash))
  }

  ghost predicate Genuine(c: Codec, k: Keeper, data: Bytes) {
    match c.decode(data)
    case None => true
    case Some(o) => o.head.typ == TYPE_CIDR ==> GenuineObject(c, k, o)
  }

  ghost predicate GenuineEnv(c: Codec, k: Keeper, env: Env) {
    (forall n :: n in env.packages ==> Genuine(c, k, env.packages[n])) &&
    (env.reply.Reference? && env.reply.fetch.Fetched? ==> Genuine(c, k, env.reply.fetch.data))
  }

  ghost predicate GenuineEvent(c: Codec, k: Keeper, e: Event) {
    GenuineEnv(c, k, e.env) && (e.Took? && e.frame.carried.Carried? ==> Genuine(c, k, e.frame.carried.data))
  }

  ghost predicate GenuineEvents(c: Codec, k: Keeper, events: seq<Event>) {
    forall i :: 0 <= i < |events| ==> GenuineEvent(c, k, events[i])
  }

  // ---- safety ----

  /** A ready set holds the keeper's key, prefixes and expiries at its own `(epoch, sn)`, its hash is
      the keeper's there, and its snapshot was not bad. */
  ghost predicate Faithful(c: Codec, k: Keeper, h: Held) {
    h.ready ==>
      && Knows(k, h.epoch, h.sn)
      && h.key == k[h.epoch].key
      && h.nets == After(k[h.epoch], h.sn)
      && ValidNets(h.nets) && RightHash(c, k, h.epoch, h.sn, HashOf(c, h))
      && !h.snapBad
  }

  lemma SnapshotFaithful(c: Codec, k: Keeper, r: Run, env: Env)
    requires Wf(r.held) && GenuineEnv(c, k, env) && Faithful(c, k, r.held)
    ensures Faithful(c, k, Snapshot(c, r, env).held)
  {
  }

  lemma VerifyFaithful(c: Codec, k: Keeper, r: Run, want: string, env: Env)
    requires Wf(r.held) && GenuineEnv(c, k, env) && Faithful(c, k, r.held)
    ensures Faithful(c, k, Verify(c, r, want, env).1.held)
  {
    SnapshotFaithful(c, k, r, env);
  }

  /** Applying a genuine package moves a faithful set one change forward, and its digest agrees. */
  lemma AdvanceFaithful(c: Codec, k: Keeper, h: Held, data: Bytes)
    requires Wf(h) && h.ready && Genuine(c, k, data) && Faithful(c, k, h) && h.sn + 1 < TWO64
    requires PackageFor(c, data, h.epoch, h.sn + 1).Some?
    ensures var o := PackageFor(c, data, h.epoch, h.sn + 1).value;
            Runs(o) && Faithful(c, k, Advance(h, o)) && HashOf(c, Advance(h, o)) == o.head.hash
  {
  }

  lemma ApplyFaithful(c: Codec, k: Keeper, r: Run, data: Bytes, env: Env)
    requires Wf(r.held) && r.held.ready && r.held.sn + 1 < TWO64
    requires GenuineEnv(c, k, env) && Genuine(c, k, data) && Faithful(c, k, r.held)
    ensures Faithful(c, k, ApplyPackage(c, r, data, r.held.sn + 1, env).1.held)
    ensures ApplyPackage(c, r, data, r.held.sn + 1, env).0 ==> ApplyPackage(c, r, data, r.held.sn + 1, env).1.held.ready
  {
    match PackageFor(c, data, r.held.epoch, r.held.sn + 1)
    case None => SnapshotFaithful(c, k, r, env);
    case Some(o) =>
      AdvanceFaithful(c, k, r.held, data);
  }

  lemma PackageFaithful(c: Codec, k: Keeper, r: Run, left: nat, env: Env)
    requires Wf(r.held) && r.held.ready && left > 0 && r.held.sn + 1 < TWO64
    requires GenuineEnv(c, k, env) && Faithful(c, k, r.held)
    ensures var t := NextPackage(c, r, left, env);
            Faithful(c, k, t.run.held) && (t.Go? ==> t.run.held.ready)
  {
    NextPackageIs(c, r, left, env);
    var o := NextObject(c, r.held, env);
    if o.None? {
      SnapshotFaithful(c, k, r, env);
    } else {
      AdvanceFaithful(c, k, r.held, env.packages[r.held.sn + 1]);
    }
  }

  lemma BatchFaithful(c: Codec, k: Keeper, r: Run, upto: u64, hash: string, env: Env)
    requires Wf(r.held) && GenuineEnv(c, k, env) && Faithful(c, k, r.held)
    ensures Faithful(c, k, NextBatch(c, r, upto, hash, env).run.held)
  {
    VerifyFaithful(c, k, r, hash, env);
  }

  lemma TurnFaithful(c: Codec, k: Keeper, r: Run, left: nat, upto: u64, hash: string, env: Env)
    requires Wf(r.held) && r.held.ready && Fitting(r.held.sn, left, upto)
    requires GenuineEnv(c, k, env) && Faithful(c, k, r.held)
    ensures var t := TakeTurn(c, r, left, upto, hash, env);
            Faithful(c, k, t.run.held) && (t.Go? ==> t.run.held.ready)
  {
    if left == 0 {
      BatchFaithful(c, k, r, upto, hash, env);
    } else {
      PackageFaithful(c, k, r, left, env);
    }
  }

  lemma {:induction false} WalkFaithful(c: Codec, k: Keeper, r: Run, left: nat, upto: u64, hash: string, env: Env)
    requires Wf(r.held) && r.held.ready && Fitting(r.held.sn, left, upto)
    requires GenuineEnv(c, k, env) && Faithful(c, k, r.held)
    ensures Faithful(c, k, Walk(c, r, left, upto, hash, env).held)
    decreases Measure(r.held.sn, left, upto)
  {
    TurnFaithful(c, k, r, left, upto, hash, env);
    var t := TakeTurn(c, r, left, upto, hash, env);
    if t.Go? {
      WalkFaithful(c, k, t.run, t.left, upto, hash, env);
    }
  }

  lemma EventFaithful(c: Codec, k: Keeper, r: Run, e: Event)
    requires Wf(r.held) && GenuineEvent(c, k, e) && Faithful(c, k, r.held)
    ensures Faithful(c, k, Next(c, r, e).held)
  {
    match e {
      case Began(env) => SnapshotFaithful(c, k, r, env);
      case Took(f, env) =>
        var h := r.held;
        SnapshotFaithful(c, k, r, env);
        if f.v == VERSION && h.ready && !f.op.Resync? && f.epoch.Some? {
          if f.epoch.value != h.epoch {
            SnapshotFaithful(c, k, r.(held := h.(snapBad := false), turns := r.turns + 1), env);
          } else if f.sn == h.sn {
            VerifyFaithful(c, k, r, f.hash, env);
          } else if f.sn > h.sn {
            if f.op.Diff? && f.carried.Carried? && f.sn == h.sn + 1 {
              ApplyFaithful(c, k, r, f.carried.data, env);
            } else if env.blobs {
              WalkFaithful(c, k, r, 0, f.sn, f.hash, env);
            }
          }
        }
    }
  }

  /** Mirror safety: whatever frames arrive, in whatever order, however often, with whatever digests,
      and whatever objects and answers are lost, a set fed genuine objects is faithful whenever it is
      ready. */
  lemma {:induction false} MirrorIsSafe(c: Codec, k: Keeper, events: seq<Event>)
    requires GenuineEvents(c, k, events)
    ensures Faithful(c, k, Exec(c, events).held)
  {
    if events != [] {
      var before := events[..|events| - 1];
      MirrorIsSafe(c, k, before);
      EventFaithful(c, k, Exec(c, before), events[|events| - 1]);
    }
  }

  // ---- what a reader can see ----

  /** What a turn of a catch-up shows at each release of the set's lock: a package that was applied, before
      it is verified, and what the turn leaves. */
  ghost function TurnShows(c: Codec, r: Run, left: nat, upto: u64, hash: string, env: Env): seq<Held>
    requires Wf(r.held) && Fitting(r.held.sn, left, upto)
  {
    var end := [TakeTurn(c, r, left, upto, hash, env).run.held];
    if left == 0 then end
    else
      var o := NextObject(c, r.held, env);
      if o.Some? && Runs(o.value) then [Advance(r.held, o.value)] + end else end
  }

  ghost function WalkShows(c: Codec, r: Run, left: nat, upto: u64, hash: string, env: Env): seq<Held>
    requires Wf(r.held) && Fitting(r.held.sn, left, upto)
    decreases Measure(r.held.sn, left, upto)
  {
    var t := TakeTurn(c, r, left, upto, hash, env);
    TurnShows(c, r, left, upto, hash, env) + if t.Go? then WalkShows(c, t.run, t.left, upto, hash, env) else []
  }

  /** Everything the set shows while an event is handled. */
  ghost function Shows(c: Codec, r: Run, e: Event): seq<Held>
    requires Wf(r.held)
  {
    var h := r.held;
    var end := [Next(c, r, e).held];
    if !r.over && e.Took? && e.frame.v == VERSION && h.ready && !e.frame.op.Resync? && e.frame.epoch == Some(h.epoch) && e.frame.sn > h.sn then
      if e.frame.op.Diff? && e.frame.carried.Carried? && e.frame.sn == h.sn + 1 then
        var o := PackageFor(c, e.frame.carried.data, h.epoch, e.frame.sn);
        if o.Some? && Runs(o.value) then [Advance(h, o.value)] + end else end
      else if e.env.blobs then WalkShows(c, r, 0, e.frame.sn, e.frame.hash, e.env) + end
      else end
    else end
  }

  ghost predicate AllFaithful(c: Codec, k: Keeper, hs: seq<Held>) {
    forall i :: 0 <= i < |hs| ==> Faithful(c, k, hs[i])
  }

  lemma AllFaithfulJoin(c: Codec, k: Keeper, a: seq<Held>, b: seq<Held>)
    requires AllFaithful(c, k, a) && AllFaithful(c, k, b)
    ensures AllFaithful(c, k, a + b)
  {
  }

  lemma TurnShowsFaithful(c: Codec, k: Keeper, r: Run, left: nat, upto: u64, hash: string, env: Env)
    requires Wf(r.held) && r.held.ready && Fitting(r.held.sn, left, upto)
    requires GenuineEnv(c, k, env) && Faithful(c, k, r.held)
    ensures AllFaithful(c, k, TurnShows(c, r, left, upto, hash, env))
  {
    var end := [TakeTurn(c, r, left, upto, hash, env).run.held];
    TurnFaithful(c, k, r, left, upto, hash, env);
    if left > 0 && NextObject(c, r.held, env).Some? {
      AdvanceFaithful(c, k, r.held, env.packages[r.held.sn + 1]);
      AllFaithfulJoin(c, k, [Advance(r.held, NextObject(c, r.held, env).value)], end);
    }
  }

  lemma {:induction false} WalkShowsFaithful(c: Codec, k: Keeper, r: Run, left: nat, upto: u64, hash: string, env: Env)
    requires Wf(r.held) && r.held.ready && Fitting(r.held.sn, left, upto)
    requires GenuineEnv(c, k, env) && Faithful(c, k, r.held)
    ensures AllFaithful(c, k, WalkShows(c, r, left, upto, hash, env))
    decreases Measure(r.held.sn, left, upto)
  {
    var t := TakeTurn(c, r, left, upto, hash, env);
    TurnShowsFaithful(c, k, r, left, upto, hash, env);
    if t.Go? {
      TurnFaithful(c, k, r, left, upto, hash, env);
      WalkShowsFaithful(c, k, t.run, t.left, upto, hash, env);
      AllFaithfulJoin(c, k, TurnShows(c, r, left, upto, hash, env), WalkShows(c, t.run, t.left, upto, hash, env));
    } else {
      AllFaithfulJoin(c, k, TurnShows(c, r, left, upto, hash, env), []);
    }
  }

  lemma ShowsFaithful(c: Codec, k: Keeper, r: Run, e: Event)
    requires Wf(r.held) && GenuineEvent(c, k, e) && Faithful(c, k, r.held)
    ensures AllFaithful(c, k, Shows(c, r, e))
  {
    var h := r.held;
    EventFaithful(c, k, r, e);
    if e.Took? && e.frame.v == VERSION && h.ready && !e.frame.op.Resync? && e.frame.epoch == Some(h.epoch) && e.frame.sn > h.sn {
      if e.frame.op.Diff? && e.frame.carried.Carried? && e.frame.sn == h.sn + 1 {
        if PackageFor(c, e.frame.carried.data, h.epoch, e.frame.sn).Some? {
          AdvanceFaithful(c, k, h, e.frame.carried.data);
        }
      } else if e.env.blobs {
        WalkShowsFaithful(c, k, r, 0, e.frame.sn, e.frame.hash, e.env);
        AllFaithfulJoin(c, k, WalkShows(c, r, 0, e.frame.sn, e.frame.hash, e.env), [Next(c, r, e).held]);
      }
    }
  }

  /** Safety at every release of the lock: not only between events but inside a catch-up, after every single
      package, a reader sees a set that is faithful whenever it is ready. */
  lemma ReadersSeeKeeper(c: Codec, k: Keeper, events: seq<Event>, n: nat)
    requires GenuineEvents(c, k, events) && n < |events|
    ensures AllFaithful(c, k, Shows(c, Exec(c, events[..n]), events[n]))
  {
    assert GenuineEvents(c, k, events[..n]);
    MirrorIsSafe(c, k, events[..n]);
    assert GenuineEvent(c, k, events[n]);
    ShowsFaithful(c, k, Exec(c, events[..n]), events[n]);
  }

  /** No snapshot with a wrong hash was installed between the two, and the program has not ended. */
  predicate Clean(r: Run, r': Run) {
    r'.spoiled == r.spoiled && r'.over == r.over
  }

  lemma SnapshotClean(c: Codec, k: Keeper, r: Run, env: Env)
    requires Wf(r.held) && GenuineEnv(c, k, env)
    ensures Clean(r, Snapshot(c, r, env))
  {
  }

  lemma {:induction false} WalkClean(c: Codec, k: Keeper, r: Run, left: nat, upto: u64, hash: string, env: Env)
    requires Wf(r.held) && GenuineEnv(c, k, env) && Fitting(r.held.sn, left, upto)
    ensures Clean(r, Walk(c, r, left, upto, hash, env))
    decreases Measure(r.held.sn, left, upto)
  {
    var t := TakeTurn(c, r, left, upto, hash, env);
    TurnClean(c, k, r, left, upto, hash, env);
    if t.Go? {
      WalkClean(c, k, t.run, t.left, upto, hash, env);
    }
  }

  lemma TurnClean(c: Codec, k: Keeper, r: Run, left: nat, upto: u64, hash: string, env: Env)
    requires Wf(r.held) && GenuineEnv(c, k, env) && Fitting(r.held.sn, left, upto)
    ensures Clean(r, TakeTurn(c, r, left, upto, hash, env).run)
  {
    SnapshotClean(c, k, r, env);
    if left > 0 {
      NextPackageIs(c, r, left, env);
      var o := NextObject(c, r.held, env);
      if o.Some? {
        assert GenuineObject(c, k, o.value);
        SnapshotClean(c, k, Advanced(r, o.value), env);
      }
    }
  }

  lemma EventClean(c: Codec, k: Keeper, r: Run, e: Event)
    requires Wf(r.held) && GenuineEvent(c, k, e)
    ensures Clean(r, Next(c, r, e))
  {
    SnapshotClean(c, k, r, e.env);
    if e.Took? {
      var f, h := e.frame, r.held;
      SnapshotClean(c, k, r.(held := h.(snapBad := false), turns := r.turns + 1), e.env);
      if f.v == VERSION && h.ready && !f.op.Resync? && f.epoch == Some(h.epoch) && f.sn > h.sn {
        if f.op.Diff? && f.carried.Carried? && f.sn == h.sn + 1 {
          var o := PackageFor(c, f.carried.data, h.epoch, f.sn);
          if o.Some? {
            assert GenuineObject(c, k, o.value);
            SnapshotClean(c, k, Advanced(r, o.value), e.env);
          }
        } else {
          WalkClean(c, k, r, 0, f.sn, f.hash, e.env);
        }
      }
    }
  }

  /** With genuine objects no snapshot with a wrong hash is ever installed, in any run, and no run ends the
      program. */
  lemma {:induction false} GenuineNeverSpoils(c: Codec, k: Keeper, events: seq<Event>)
    requires GenuineEvents(c, k, events)
    ensures Exec(c, events).spoiled == 0 && !Exec(c, events).over
  {
    if events != [] {
      var before := events[..|events| - 1];
      GenuineNeverSpoils(c, k, before);
      EventClean(c, k, Exec(c, before), events[|events| - 1]);
    }
  }

  // ---- answers ----

  predicate MaskedKeeper(k: Keeper) {
    forall e :: e in k ==> MaskedNets(k[e].base) && forall i :: 0 <= i < |k[e].changes| ==> AddsMasked(k[e].changes[i])
  }

  predicate AddsMasked(recs: seq<Record>) {
    forall i :: 0 <= i < |recs| && recs[i].op == OP_ADD ==> ValidPrefix(recs[i].prefix) && IsMasked(recs[i].prefix)
  }

  lemma {:induction false} AfterMasked(k: Keeper, epoch: int, n: nat)
    requires MaskedKeeper(k) && Knows(k, epoch, n)
    ensures MaskedNets(After(k[epoch], n))
  {
    if n > 0 {
      AfterMasked(k, epoch, n - 1);
      assert AddsMasked(k[epoch].changes[n - 1]);
      ReplayKeepsMasked(After(k[epoch], n - 1), k[epoch].changes[n - 1]);
    }
  }

  /** A ready mirror of a keeper that stores masked prefixes answers every lookup as a linear scan of what the
      keeper held at the mirror's own place would. */
  lemma MirrorAnswersForKeeper(c: Codec, k: Keeper, events: seq<Event>, a: Addr, now: i64)
    requires MaskedKeeper(k) && GenuineEvents(c, k, events)
    ensures var h := Exec(c, events).held;
            h.ready ==> Knows(k, h.epoch, h.sn) && ValidNets(h.nets) && ValidNets(After(k[h.epoch], h.sn)) &&
                        (Covered(MaskedPart(h.nets), a, now) <==> Covered(After(k[h.epoch], h.sn), a, now))
  {
    MirrorIsSafe(c, k, events);
    var h := Exec(c, events).held;
    if h.ready {
      AfterMasked(k, h.epoch, h.sn);
      assert MaskedPart(h.nets) == h.nets;
    }
  }
}
