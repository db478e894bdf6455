/** A mirror follows its keeper: what each frame makes of a set, in terms of the fields it holds, the bytes it is given and
    the keeper's history. */
module MirrorProgress {
  import opened Bits
  import opened Netip
  import opened Composition
  import opened Wafs
  import opened Mirror
  import opened MirrorSafety
  import opened MirrorCatchUp

  // ---- what is offered ----

  /** The bytes are a package of addresses for `(epoch, n)`. */
  ghost predicate IsPackage(c: Codec, data: Bytes, epoch: u64, n: int) {
    var o := c.decode(data);
    o.Some? && o.value.head.kind == KIND_PACKAGE && o.value.head.typ == TYPE_CIDR &&
    o.value.head.epoch == epoch && o.value.head.sn == n
  }

  /** A snapshot request would bring a snapshot of addresses. */
  ghost predicate Offers(c: Codec, env: Env, o: Object) {
    && env.blobs && env.reply.Reference? && env.reply.fetch.Fetched?
    && c.decode(env.reply.fetch.data) == Some(o)
    && o.head.kind == KIND_SNAPSHOT && o.head.typ == TYPE_CIDR
  }

  /** The frame is one that a ready set looks at: of this version, with an epoch, and not a call to resynchronise. */
  predicate Speaks(f: Frame) {
    f.v == VERSION && !f.op.Resync? && f.epoch.Some?
  }

  predicate OfEpoch(r: Run, f: Frame) {
    Speaks(f) && f.epoch == Some(r.held.epoch)
  }

  /** A ready set that holds what the keeper held at its place, in a program that runs. */
  ghost predicate Tracks(c: Codec, k: Keeper, r: Run) {
    Wf(r.held) && r.held.ready && !r.over && Faithful(c, k, r.held)
  }

  /** The set has moved on to what the keeper held at `n`, and nothing else has changed: no request was sent. */
  ghost predicate MovesTo(k: Keeper, r: Run, n: int, r': Run)
    requires Knows(k, r.held.epoch, n) && 0 <= n < TWO64
  {
    r' == r.(held := r.held.(sn := n, nets := After(k[r.held.epoch], n)))
  }

  // ---- following ----

  /** A diff one step ahead with its genuine package inside: the set is one change further, and asks for nothing. */
  lemma InlineAdvances(c: Codec, k: Keeper, r: Run, f: Frame, env: Env)
    requires Tracks(c, k, r) && OfEpoch(r, f) && f.op.Diff? && f.sn == r.held.sn + 1
    requires f.carried.Carried? && IsPackage(c, f.carried.data, r.held.epoch, f.sn) && Genuine(c, k, f.carried.data)
    ensures Knows(k, r.held.epoch, f.sn) && MovesTo(k, r, f.sn, Next(c, r, Took(f, env)))
  {
    var data := f.carried.data;
    AdvanceFaithful(c, k, r.held, data);
    assert PackageFor(c, data, r.held.epoch, f.sn) == c.decode(data);
  }

  /** The frame's package is not inside it, or not for the set's next place. */
  predicate MustRead(r: Run, f: Frame) {
    f.sn > r.held.sn && !(f.op.Diff? && f.carried.Carried? && f.sn == r.held.sn + 1)
  }

  /** Everything a catch-up to the frame needs: an object store that answers, and every package from the set's place to the
      frame's, for the set's epoch. */
  ghost predicate Complete(c: Codec, r: Run, f: Frame, env: Env) {
    && env.blobs && env.failing == {}
    && forall n :: r.held.sn < n <= f.sn ==> n in env.packages && IsPackage(c, env.packages[n], r.held.epoch, n)
  }

  /** A frame further ahead: with every package there and genuine, the set ends at the frame's place with what the keeper
      held there, and asks for nothing. */
  lemma FrameCatchesUp(c: Codec, k: Keeper, r: Run, f: Frame, env: Env)
    requires Tracks(c, k, r) && OfEpoch(r, f) && MustRead(r, f) && Complete(c, r, f, env) && GenuineEnv(c, k, env)
    requires Knows(k, r.held.epoch, f.sn) && Expected(c, k, r.held.epoch, f.sn, f.hash)
    ensures MovesTo(k, r, f.sn, Next(c, r, Took(f, env)))
  {
    CompleteIsThere(c, r, f, env);
    WalkCompletes(c, k, r, 0, f.sn, f.hash, env);
  }

  lemma CompleteIsThere(c: Codec, r: Run, f: Frame, env: Env)
    requires Complete(c, r, f, env)
    ensures AllThere(c, env, r.held.epoch, r.held.sn, f.sn)
  {
  }

  // ---- resynchronising ----

  /** The set has taken the snapshot over: one request was sent, and it is ready with the keeper's key and composition at the
      object's place, its hash verified. */
  ghost predicate TakesOver(c: Codec, k: Keeper, r: Run, o: Object, r': Run) {
    && Knows(k, o.head.epoch, o.head.sn)
    && r'.held == Held(true, o.head.epoch, o.head.sn, k[o.head.epoch].key, After(k[o.head.epoch], o.head.sn), false)
    && r'.asked == r.asked + 1 && r'.spoiled == r.spoiled && r'.over == r.over
  }

  lemma SnapshotTakesOver(c: Codec, k: Keeper, r: Run, env: Env, o: Object)
    requires Wf(r.held) && !r.held.snapBad && GenuineEnv(c, k, env) && Offers(c, env, o)
    ensures TakesOver(c, k, r, o, Snapshot(c, r, env)) && Snapshot(c, r, env).turns == r.turns
  {
    assert Brought(c, env) == Some(o);
    assert GenuineObject(c, k, o);
  }

  /** A set that is not ready asks for a snapshot when it starts and on every frame of this version, and is ready once a
      genuine one is brought. */
  lemma NotReadyAsks(c: Codec, k: Keeper, r: Run, e: Event, o: Object)
    requires Wf(r.held) && !r.over && !r.held.ready && (e.Took? ==> e.frame.v == VERSION)
    ensures Next(c, r, e).asked == r.asked + 1
    ensures GenuineEnv(c, k, e.env) && Offers(c, e.env, o) ==> TakesOver(c, k, r, o, Next(c, r, e))
  {
    if GenuineEnv(c, k, e.env) && Offers(c, e.env, o) { SnapshotTakesOver(c, k, r, e.env, o); }
  }

  /** A set that meets another epoch asks for a snapshot, whatever its last one was, and takes a genuine one over. */
  lemma EpochTurns(c: Codec, k: Keeper, r: Run, f: Frame, env: Env, o: Object)
    requires Wf(r.held) && !r.over && r.held.ready && Speaks(f) && f.epoch != Some(r.held.epoch)
    ensures Next(c, r, Took(f, env)).asked == r.asked + 1 && Next(c, r, Took(f, env)).turns == r.turns + 1
    ensures GenuineEnv(c, k, env) && Offers(c, env, o) ==> TakesOver(c, k, r, o, Next(c, r, Took(f, env)))
  {
    if GenuineEnv(c, k, env) && Offers(c, env, o) {
      SnapshotTakesOver(c, k, r.(held := r.held.(snapBad := false), turns := r.turns + 1), env, o);
    }
  }

  /** The frame names the set's own place and a digest. */
  predicate Compares(r: Run, f: Frame) {
    OfEpoch(r, f) && f.sn == r.held.sn && (f.op.Tick? || f.op.Diff?) && f.hash != ""
  }

  /** A frame for the set's own place compares digests. An equal one leaves the set alone; a different one makes it ask for a
      snapshot and take a genuine one over, unless its last snapshot was bad already. */
  lemma DivergenceResyncs(c: Codec, k: Keeper, r: Run, f: Frame, env: Env, o: Object)
    requires Wf(r.held) && !r.over && r.held.ready && Compares(r, f)
    ensures f.hash == c.show(HashOf(c, r.held)) || r.held.snapBad ==> Next(c, r, Took(f, env)) == r
    ensures f.hash != c.show(HashOf(c, r.held)) && !r.held.snapBad ==> Next(c, r, Took(f, env)).asked == r.asked + 1
    ensures f.hash != c.show(HashOf(c, r.held)) && !r.held.snapBad && GenuineEnv(c, k, env) && Offers(c, env, o) ==>
              TakesOver(c, k, r, o, Next(c, r, Took(f, env)))
  {
    if !r.held.snapBad && GenuineEnv(c, k, env) && Offers(c, env, o) { SnapshotTakesOver(c, k, r, env, o); }
  }

  /** A package that is gone makes the set ask for a snapshot and take a genuine one over. */
  lemma GapResyncs(c: Codec, k: Keeper, r: Run, f: Frame, env: Env, o: Object)
    requires Wf(r.held) && !r.over && r.held.ready && !r.held.snapBad && OfEpoch(r, f) && MustRead(r, f)
    requires env.blobs && r.held.sn !in env.failing && r.held.sn + 1 !in env.packages
    ensures Next(c, r, Took(f, env)).asked == r.asked + 1
    ensures GenuineEnv(c, k, env) && Offers(c, env, o) ==> TakesOver(c, k, r, o, Next(c, r, Took(f, env)))
  {
    var n := Min(f.sn - r.held.sn, PACKAGES_PER_READ);
    assert TakeTurn(c, r, 0, f.sn, f.hash, env) == Go(r, n);
    assert Walk(c, r, 0, f.sn, f.hash, env) == Walk(c, r, n, f.sn, f.hash, env) == Snapshot(c, r, env);
    if GenuineEnv(c, k, env) && Offers(c, env, o) { SnapshotTakesOver(c, k, r, env, o); }
  }

  /** An inline package that is not one for the set's next place makes it ask for a snapshot. */
  lemma MisfitResyncs(c: Codec, k: Keeper, r: Run, f: Frame, env: Env, o: Object)
    requires Wf(r.held) && !r.over && r.held.ready && !r.held.snapBad && OfEpoch(r, f) && f.op.Diff? && f.sn == r.held.sn + 1
    requires f.carried.Carried? && !IsPackage(c, f.carried.data, r.held.epoch, f.sn)
    ensures Next(c, r, Took(f, env)).asked == r.asked + 1
    ensures GenuineEnv(c, k, env) && Offers(c, env, o) ==> TakesOver(c, k, r, o, Next(c, r, Took(f, env)))
  {
    assert PackageFor(c, f.carried.data, r.held.epoch, f.sn).None?;
    if GenuineEnv(c, k, env) && Offers(c, env, o) { SnapshotTakesOver(c, k, r, env, o); }
  }

  /** A package that was applied is verified: where the digest it names is not the set's own afterwards, the set asks for a
      snapshot and takes a genuine one over, unless its last snapshot was bad already. */
  lemma WrongPackageResyncs(c: Codec, k: Keeper, r: Run, f: Frame, env: Env, o: Object, s: Object)
    requires Wf(r.held) && !r.over && r.held.ready && !r.held.snapBad && OfEpoch(r, f) && f.op.Diff? && f.sn == r.held.sn + 1
    requires f.carried.Carried? && IsPackage(c, f.carried.data, r.held.epoch, f.sn) && c.decode(f.carried.data) == Some(o)
    requires Runs(o) && c.show(o.head.hash) != "" && c.show(HashOf(c, Advance(r.held, o))) != c.show(o.head.hash)
    ensures Next(c, r, Took(f, env)).asked == r.asked + 1
    ensures GenuineEnv(c, k, env) && Offers(c, env, s) ==> TakesOver(c, k, r, s, Next(c, r, Took(f, env)))
  {
    assert PackageFor(c, f.carried.data, r.held.epoch, f.sn) == Some(o);
    if GenuineEnv(c, k, env) && Offers(c, env, s) { SnapshotTakesOver(c, k, Advanced(r, o), env, s); }
  }

  /** A catch-up that has arrived is verified: where the frame's digest is not the keeper's, the set asks for a snapshot. */
  lemma WrongDigestResyncs(c: Codec, k: Keeper, r: Run, f: Frame, env: Env, o: Object)
    requires Tracks(c, k, r) && OfEpoch(r, f) && MustRead(r, f) && Complete(c, r, f, env) && GenuineEnv(c, k, env)
    requires Knows(k, r.held.epoch, f.sn) && ValidNets(After(k[r.held.epoch], f.sn))
    requires f.hash != "" && f.hash != c.show(Fold(c.digest, r.held.key, After(k[r.held.epoch], f.sn).Keys))
    ensures Next(c, r, Took(f, env)).asked == r.asked + 1
    ensures Offers(c, env, o) ==> TakesOver(c, k, r, o, Next(c, r, Took(f, env)))
  {
    CompleteIsThere(c, r, f, env);
    WalkArrives(c, k, r, 0, f.sn, f.hash, env);
    if Offers(c, env, o) { SnapshotTakesOver(c, k, Placed(k, r, f.sn), env, o); }
  }

  /** A read that fails, and a set without an object store, leave the set where it is and ask for nothing. */
  lemma FailedReadWaits(c: Codec, r: Run, f: Frame, env: Env)
    requires Wf(r.held) && !r.over && r.held.ready && OfEpoch(r, f) && MustRead(r, f)
    requires !env.blobs || r.held.sn in env.failing
    ensures Next(c, r, Took(f, env)) == r
  {
  }

  /** Frames of another version change nothing; nor, once the set is ready, do calls to resynchronise, frames without an
      epoch, and frames from behind. */
  lemma OthersAreIgnored(c: Codec, r: Run, f: Frame, env: Env)
    requires Wf(r.held)
    requires f.v != VERSION || (r.held.ready && (!Speaks(f) || (OfEpoch(r, f) && f.sn < r.held.sn)))
    ensures Next(c, r, Took(f, env)) == r
  {
  }

  // ---- what a snapshot makes of a set ----

  /** An installed snapshot: ready at the object's place under its key, a prefix stored if and only if the last record naming
      it is an add, and bad if and only if its own hash is not the one named. */
  lemma InstallIs(c: Codec, o: Object, p: Prefix)
    requires Runs(o)
    ensures var h := Install(c, o);
            && h.ready && h.epoch == o.head.epoch && h.sn == o.head.sn && h.key == o.head.key
            && (h.snapBad <==> HashOf(c, h) != o.head.hash)
            && (NeverNamed(Records(o), p) ==> p !in h.nets)
            && (forall i :: NamesLast(Records(o), p, i) ==>
                  (p in h.nets <==> Records(o)[i].op == OP_ADD) &&
                  (p in h.nets ==> h.nets[p] == Records(o)[i].exp))
  {
    LastWriterWins(map[], Records(o), p);
  }

  /** A snapshot with a wrong hash is installed all the same, is counted, and silences the set until another epoch. */
  lemma WrongHashIsCounted(c: Codec, r: Run, env: Env, o: Object)
    requires Wf(r.held) && !r.held.snapBad && Offers(c, env, o) && Runs(o)
    requires HashOf(c, Install(c, o)) != o.head.hash
    ensures var r' := Snapshot(c, r, env);
            r'.held == Install(c, o) && r'.held.snapBad && r'.spoiled == r.spoiled + 1 && r'.asked == r.asked + 1
  {
    assert Brought(c, env) == Some(o);
  }

  // ---- over runs ----

  /** One more event carries the set on from where a run has left it. */
  lemma RunGoesOn(c: Codec, events: seq<Event>, e: Event)
    ensures Exec(c, events + [e]) == Next(c, Exec(c, events), e)
  {
    assert (events + [e])[..|events|] == events;
  }

  /** The frame brings the set its next change or all that it misses. */
  ghost predicate Brings(c: Codec, k: Keeper, r: Run, f: Frame, env: Env) {
    OfEpoch(r, f) && f.sn > r.held.sn &&
    if MustRead(r, f) then
      Complete(c, r, f, env) && GenuineEnv(c, k, env) && Knows(k, r.held.epoch, f.sn) && Expected(c, k, r.held.epoch, f.sn, f.hash)
    else IsPackage(c, f.carried.data, r.held.epoch, f.sn) && Genuine(c, k, f.carried.data)
  }

  /** A ready set that tracks its keeper tracks it at the place of every frame that brings what it misses. */
  lemma BroughtIsFollowed(c: Codec, k: Keeper, r: Run, f: Frame, env: Env)
    requires Tracks(c, k, r) && Brings(c, k, r, f, env)
    ensures Knows(k, r.held.epoch, f.sn) && MovesTo(k, r, f.sn, Next(c, r, Took(f, env)))
  {
    if MustRead(r, f) { FrameCatchesUp(c, k, r, f, env); } else { InlineAdvances(c, k, r, f, env); }
  }

  /** Every run of genuine objects that has left the set ready is continued by such a frame to the frame's own place. */
  lemma RunFollows(c: Codec, k: Keeper, events: seq<Event>, f: Frame, env: Env)
    requires GenuineEvents(c, k, events) && Exec(c, events).held.ready && Brings(c, k, Exec(c, events), f, env)
    ensures var h, h' := Exec(c, events).held, Exec(c, events + [Took(f, env)]).held;
            Knows(k, h.epoch, f.sn) && h'.ready && h'.epoch == h.epoch && h'.sn == f.sn && h'.nets == After(k[h.epoch], f.sn)
  {
    MirrorIsSafe(c, k, events);
    GenuineNeverSpoils(c, k, events);
    BroughtIsFollowed(c, k, Exec(c, events), f, env);
    RunGoesOn(c, events, Took(f, env));
  }
}
