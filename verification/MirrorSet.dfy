/** The set of internal/dyn/dyn.go as an object: its fields are updated in place, its composition is
    mutated by packages and replaced by snapshots. Each method is proved to take the step the module
    Mirror describes. */
module MirrorSet {
  import opened Bits
  import opened Netip
  import opened Composition
  import opened Wafs
  import opened Mirror
  import opened MirrorSafety
  import opened MirrorCatchUp
  import opened MirrorProgress

  /** Terms by which the two equations below are asked for, one argument at a time. */
  predicate Read(data: Bytes) { true }
  predicate Shown(n: u64) { true }

  /** The codec is the program's: this hash, the WAFS reader, sixteen hexadecimal digits. */
  ghost predicate Codes(c: Codec, d: Digest) {
    && c.digest == d
    && (forall data {:trigger Read(data)} :: Read(data) ==> c.decode(data) == Decoded(data))
    && (forall n {:trigger Shown(n)} :: Shown(n) ==> c.show(n) == HexOf(n))
  }

  lemma WafsCodecCodes(d: Digest)
    ensures Codes(WafsCodec(d), d)
  {
  }

  /** What a catch-up comes to from a set and the packages left of its batch. */
  type Course = (Run, nat) -> Run

  /** A term by which the equation below is asked for. */
  predicate Stands(r: Run, left: nat) { true }

  /** The course of this catch-up is the protocol's. */
  ghost predicate Walks(course: Course, c: Codec, upto: u64, hash: string, env: Env) {
    forall r, left {:trigger Stands(r, left)} ::
      Stands(r, left) && Wf(r.held) && Fitting(r.held.sn, left, upto) ==>
        course(r, left) == Walk(c, r, left, upto, hash, env)
  }

  ghost function CourseOf(c: Codec, upto: u64, hash: string, env: Env): (course: Course)
    ensures Walks(course, c, upto, hash, env)
  {
    (r: Run, left: nat) =>
      if Wf(r.held) && Fitting(r.held.sn, left, upto) then Walk(c, r, left, upto, hash, env) else r
  }

  /** A batch is used up. */
  lemma WalkReads(course: Course, c: Codec, r: Run, upto: u64, hash: string, env: Env)
    requires Wf(r.held) && Walks(course, c, upto, hash, env)
    ensures course(r, 0) ==
            if r.held.sn >= upto then Verify(c, r, hash, env).1
            else if r.held.sn in env.failing then r
            else course(r, Min(upto - r.held.sn, PACKAGES_PER_READ))
  {
    assert Stands(r, 0);
    if r.held.sn < upto { assert Stands(r, Min(upto - r.held.sn, PACKAGES_PER_READ)); }
  }

  /** A package of a batch is dealt with. */
  lemma WalkApplies(course: Course, c: Codec, r: Run, left: nat, upto: u64, hash: string, env: Env, ok: bool, r': Run)
    requires Wf(r.held) && left > 0 && r.held.sn + left <= upto && Walks(course, c, upto, hash, env)
    requires NextPackage(c, r, left, env) == if ok then Go(r', left - 1) else Stop(r')
    ensures ok ==> r'.held.sn == r.held.sn + 1
    ensures course(r, left) == if ok then course(r', left - 1) else r'
  {
    assert Stands(r, left) && (ok ==> Stands(r', left - 1));
  }

  class LiveSet {
    const digest: Digest
    ghost const rules: Codec
    var ready: bool
    var epoch: u64
    var sn: u64
    var key: Bytes
    var comp: Index
    var syncing: bool
    var snapBad: bool
    /** An added prefix without a counter has ended the program. */
    var over: bool

    ghost var asked: nat
    ghost var spoiled: nat
    ghost var turns: nat
    /** What the set was when the program ended. */
    ghost var last: Run

    ghost predicate Valid()
      reads this, comp, comp.lens
    {
      && comp.Valid(digest, key) && (snapBad ==> ready) && Codes(rules, digest)
      && (over ==> last.over && Wf(last.held))
    }

    ghost function View(): Run
      reads this, comp
    {
      if over then last else Run(Held(ready, epoch, sn, key, comp.nets, snapBad), asked, spoiled, turns, false)
    }

    /** An index out of range. */
    method End(ghost was: Run)
      requires Valid() && Wf(was.held)
      modifies this`over, this`last
      ensures Valid() && over && View() == was.(over := true)
    {
      over := true;
      last := was.(over := true);
    }

    /** `newSet`. */
    constructor (d: Digest)
      ensures Valid() && !syncing && !over && View() == FRESH && rules == WafsCodec(d) && fresh(comp) && fresh(comp.lens)
    {
      digest := d;
      rules := WafsCodec(d);
      ready, epoch, sn, key, syncing, snapBad, over := false, 0, 0, [], false, false, false;
      comp := new Index(d, []);
      asked, spoiled, turns := 0, 0, 0;
      WafsCodecCodes(d);
    }

    /** The composition is the same object, or one made since. */
    twostate predicate Owned()
      reads this, comp, comp.lens
    {
      (comp == old(comp) && comp.lens == old(comp.lens)) || (fresh(comp) && fresh(comp.lens))
    }

    /** `Set.Contains`: a set that is not ready is a miss; a ready one answers for its masked prefixes. */
    method Contains(ip: Addr, now: i64) returns (found: bool)
      requires Valid()
      ensures found <==> ready && Covered(MaskedPart(comp.nets), Unmap(ip), now)
    {
      if !ready {
        return false;
      }
      found := comp.Contains(ip, now);
    }

    method Open(data: Bytes) returns (r: Option<Object>)
      requires Valid()
      ensures r == rules.decode(data) && (r.Some? ==> Fits(r.value))
    {
      var u := Unpack(data);
      assert Read(data);
      r := if u.Ok? then Some(u.value) else None;
    }

    method Show(n: u64) returns (s: string)
      requires Valid()
      ensures s == rules.show(n)
    {
      assert Shown(n);
      s := HexOf(n);
    }

    method Snapshot(env: Env)
      requires Valid() && !over
      modifies this, comp, comp.lens
      ensures Valid() && Owned() && syncing == old(syncing)
      ensures View() == if old(syncing) then old(View()) else Mirror.Snapshot(rules, old(View()), env)
    {
      if syncing {
        return;
      }
      syncing := true;
      Pull(env);
      syncing := false;
    }

    /** The request, the read and the installation of a snapshot. */
    method Pull(env: Env)
      requires Valid() && !over
      modifies this, comp, comp.lens
      ensures Valid() && Owned() && syncing == old(syncing)
      ensures View() == Mirror.Snapshot(rules, old(View()), env)
    {
      if snapBad {
        return;
      }
      asked := asked + 1;
      if !env.reply.Reference? || !env.blobs || !env.reply.fetch.Fetched? {
        return;
      }
      var data := env.reply.fetch.data;
      var r := Open(data);
      if r.None? {
        return;
      }
      var o := r.value;
      if o.head.kind != KIND_SNAPSHOT || o.head.typ != TYPE_CIDR {
        return;
      }
      assert Brought(rules, env) == Some(o);
      Replace(o);
    }

    /** A new composition takes the place of the old one, where its records can all be counted. */
    method Replace(o: Object)
      requires Valid() && !over && Cidrs(o)
      modifies this
      ensures Valid() && Owned() && syncing == old(syncing)
      ensures over <==> !Runs(o)
      ensures over ==> View() == old(View()).(over := true)
      ensures !over ==> View() == old(View()).(held := Install(rules, o), spoiled := old(spoiled) + (if snapBad then 1 else 0))
    {
      var made, applied := Rebuild(o.head.key, Records(o));
      if applied {
        Adopt(o, made);
      } else {
        End(View());
      }
    }

    method Adopt(o: Object, made: Index)
      requires Valid() && !over && Runs(o)
      requires made.Valid(digest, o.head.key) && made.nets == Replay(map[], Records(o))
      modifies this
      ensures Valid() && !over && comp == made && syncing == old(syncing)
      ensures View() == old(View()).(held := Install(rules, o), spoiled := old(spoiled) + (if snapBad then 1 else 0))
    {
      var bad := made.hash != o.head.hash;
      epoch, key, sn, comp := o.head.epoch, o.head.key, o.head.sn, made;
      ready := true;
      snapBad := bad;
      if bad {
        spoiled := spoiled + 1;
      }
    }

    method Rebuild(key: Bytes, recs: seq<Record>) returns (made: Index, applied: bool)
      ensures fresh(made) && fresh(made.lens) && (applied <==> Applicable(recs))
      ensures applied ==> made.Valid(digest, key) && made.nets == Replay(map[], recs)
    {
      made := new Index(digest, key);
      applied := made.ApplyAll(digest, key, recs);
    }

    method Verify(want: string, env: Env) returns (ok: bool)
      requires Valid() && !syncing && !over
      modifies this, comp, comp.lens
      ensures Valid() && !syncing && Owned() && (ok ==> !over)
      ensures (ok, View()) == Mirror.Verify(rules, old(View()), want, env)
    {
      var got := Show(comp.hash);
      if want == "" || got == want {
        return true;
      }
      if snapBad {
        return false;
      }
      Snapshot(env);
      return false;
    }

    method ApplyPackage(data: Bytes, want: u64, env: Env) returns (ok: bool)
      requires Valid() && !syncing && !over
      modifies this, comp, comp.lens
      ensures Valid() && !syncing && Owned() && (ok ==> !over)
      ensures (ok, View()) == Mirror.ApplyPackage(rules, old(View()), data, want, env)
    {
      var r := Open(data);
      if r.None? {
        Snapshot(env);
        return false;
      }
      var head := r.value.head;
      if head.kind != KIND_PACKAGE || head.epoch != epoch || head.sn != want || head.typ != TYPE_CIDR {
        assert PackageFor(rules, data, epoch, want) == None;
        Snapshot(env);
        return false;
      }
      assert PackageFor(rules, data, epoch, want) == Some(r.value);
      var applied := comp.ApplyAll(digest, key, Records(r.value));
      if !applied {
        End(old(View()));
        return false;
      }
      sn := head.sn;
      assert View() == Advanced(old(View()), r.value);
      var digestText := Show(head.hash);
      ok := Verify(digestText, env);
    }

    /** `catchUp`: batches of at most 256 reads; it ends because every package applied moves the set one
        step towards the frame. */
    method CatchUp(upto: u64, hash: string, env: Env)
      requires Valid() && !syncing && !over
      modifies this, comp, comp.lens
      ensures Valid() && !syncing && Owned()
      ensures View() == Mirror.CatchUp(rules, old(View()), upto, hash, env)
    {
      if !env.blobs {
        return;
      }
      ghost var course := CourseOf(rules, upto, hash, env);
      ghost var goal := course(View(), 0);
      assert Stands(View(), 0);
      while sn < upto
        invariant Valid() && !syncing && !over && Owned() && course(View(), 0) == goal
        decreases upto - sn
      {
        WalkReads(course, rules, View(), upto, hash, env);
        var n := Min(upto - sn, PACKAGES_PER_READ);
        if sn in env.failing {
          return;
        }
        var done := Batch(n, upto, hash, env, course);
        if done {
          return;
        }
      }
      WalkReads(course, rules, View(), upto, hash, env);
      var _ := Verify(hash, env);
    }

    /** The packages of one read, in order; `done` when the catch-up ends inside it. */
    method Batch(n: nat, upto: u64, ghost hash: string, env: Env, ghost course: Course) returns (done: bool)
      requires Valid() && !syncing && !over && 0 < n && sn + n <= upto
      requires Walks(course, rules, upto, hash, env)
      modifies this, comp, comp.lens
      ensures Valid() && !syncing && Owned()
      ensures done ==> View() == course(old(View()), n)
      ensures !done ==> !over && sn == old(sn) + n && course(View(), 0) == course(old(View()), n)
    {
      var mySn := sn;
      ghost var goal := course(View(), n);
      for i := 0 to n
        invariant sn == mySn + i && Valid() && !syncing && !over && Owned()
        invariant course(View(), n - i) == goal
      {
        var ok := Package(mySn + 1 + i, n - i, upto, hash, env, course);
        if !ok {
          return true;
        }
      }
      return false;
    }

    /** One package of a batch: a missing one, or one that does not fit, leads to a snapshot. */
    method Package(want: u64, ghost left: nat, ghost upto: u64, ghost hash: string, env: Env, ghost course: Course)
      returns (ok: bool)
      requires Valid() && !syncing && !over && want == sn + 1 && left > 0 && sn + left <= upto
      requires Walks(course, rules, upto, hash, env)
      modifies this, comp, comp.lens
      ensures Valid() && !syncing && Owned() && (ok ==> !over && sn == want)
      ensures course(old(View()), left) == if ok then course(View(), left - 1) else View()
    {
      ok := Fetched(want, left, env);
      WalkApplies(course, rules, old(View()), left, upto, hash, env, ok, View());
    }

    method Fetched(want: u64, ghost left: nat, env: Env) returns (ok: bool)
      requires Valid() && !syncing && !over && want == sn + 1 && left > 0
      modifies this, comp, comp.lens
      ensures Valid() && !syncing && Owned() && (ok ==> !over)
      ensures NextPackage(rules, old(View()), left, env) == if ok then Go(View(), left - 1) else Stop(View())
    {
      if want !in env.packages {
        Snapshot(env);
        return false;
      }
      ok := ApplyPackage(env.packages[want], want, env);
    }

    /** `onFrame`: the protocol's step; and a set that tracks a keeper is where the keeper was at the frame's place after
        every frame that brings it what it misses. */
    method OnFrame(f: Frame, env: Env, ghost k: Keeper)
      requires Valid() && !syncing && !over
      modifies this, comp, comp.lens
      ensures Valid() && !syncing && Owned()
      ensures View() == Mirror.OnFrame(rules, old(View()), f, env)
      ensures Tracks(rules, k, old(View())) && Brings(rules, k, old(View()), f, env) ==>
                !over && ready && epoch == old(epoch) && key == old(key) && sn == f.sn &&
                Knows(k, epoch, sn) && comp.nets == After(k[epoch], sn)
    {
      HandleFrame(f, env);
      if Tracks(rules, k, old(View())) && Brings(rules, k, old(View()), f, env) {
        BroughtIsFollowed(rules, k, old(View()), f, env);
      }
    }

    method HandleFrame(f: Frame, env: Env)
      requires Valid() && !syncing && !over
      modifies this, comp, comp.lens
      ensures Valid() && !syncing && Owned()
      ensures View() == Mirror.OnFrame(rules, old(View()), f, env)
    {
      if f.v != VERSION {
        return;
      }
      if !ready {
        Snapshot(env);
        return;
      }
      if f.op.Resync? || f.epoch.None? {
        return;
      }
      if f.epoch.value != epoch {
        snapBad := false;
        turns := turns + 1;
        Snapshot(env);
        return;
      }
      if f.sn < sn {
      } else if f.sn == sn {
        if f.op.Tick? || f.op.Diff? {
          var _ := Verify(f.hash, env);
        }
      } else {
        if f.op.Diff? && f.carried.Carried? && f.sn == sn + 1 {
          var _ := ApplyPackage(f.carried.data, f.sn, env);
          return;
        }
        CatchUp(f.sn, f.hash, env);
      }
    }

    /** The last of the events brings a ready set what it misses. */
    ghost predicate Followed(k: Keeper, events: seq<Event>)
      reads this
    {
      events != [] && events[|events| - 1].Took? &&
      var r := Exec(rules, events[..|events| - 1]);
      r.held.ready && Brings(rules, k, r, events[|events| - 1].frame, events[|events| - 1].env)
    }

    /** `run`: whatever a new set meets, first snapshots and frames in any order, it goes through the states of
        the protocol's run; so fed by a keeper's genuine objects it is faithful to the keeper. */
    method Serve(events: seq<Event>, ghost k: Keeper)
      requires Valid() && !syncing && !over && View() == FRESH
      modifies this, comp, comp.lens
      ensures Valid() && !syncing && Owned() && View() == Exec(rules, events)
      ensures GenuineEvents(rules, k, events) ==> !over && Faithful(rules, k, View().held)
      ensures GenuineEvents(rules, k, events) && Followed(k, events) ==>
                ready && epoch == Exec(rules, events[..|events| - 1]).held.epoch && sn == events[|events| - 1].frame.sn &&
                Knows(k, epoch, sn) && comp.nets == After(k[epoch], sn)
    {
      for i := 0 to |events|
        invariant Valid() && !syncing && Owned() && View() == Exec(rules, events[..i])
      {
        assert events[..i + 1][..i] == events[..i];
        if over {
          continue;
        }
        match events[i] {
          case Began(env) => Snapshot(env);
          case Took(f, env) => OnFrame(f, env, k);
        }
      }
      assert events[..|events|] == events;
      if GenuineEvents(rules, k, events) {
        MirrorIsSafe(rules, k, events);
        GenuineNeverSpoils(rules, k, events);
        if Followed(k, events) {
          var n := |events| - 1;
          assert events == events[..n] + [Took(events[n].frame, events[n].env)];
          RunFollows(rules, k, events[..n], events[n].frame, events[n].env);
        }
      }
    }
  }
}
