/** The watch of internal/desired/watch.go: which pack is tried when, and what is reported of it. */
module Watch {
  import opened Bits
  import opened Desired

  datatype Status = Never | Ok | Failed

  /** `Applied`: the generation that is reported. */
  datatype Record = Record(hash: Hash, rev: int, apply: Status, names: set<string>)

  /** What one attempt meets: whether there is a blob store, what it holds, the time and the faults. */
  datatype Env = Env(hasStore: bool, held: Blobs, down: bool, at: nat, faults: Faults)

  datatype Outcome = Rejected | Already | NoStore | Unfetched | Broken | Done

  /** The record names the pack as applied. */
  predicate Current(r: Record, p: Pack) {
    r.apply.Ok? && r.hash == p.sha && r.rev == p.rev
  }

  /** The attempt gets as far as the swap. */
  predicate Reached(r: Record, raw: Option<Pack>, e: Env, digest: Body -> Hash) {
    && raw.Some? && !Current(r, raw.value) && e.hasStore
    && (Hashes(raw.value) == {} || (!e.down && Fetchable(Hashes(raw.value), e.held, digest)))
  }

  /** What the attempt stages: the pack with the store's blobs, over what could not be cleared. */
  ghost predicate StagedTree(next: Option<Files>, p: Pack, e: Env, t: Files) {
    LaidOver(Inside(Removed(next, e.faults.clearNext)), p, Given(Hashes(p), e.held), e.at, t)
  }

  /** The files hold what the pack names: every list, system and country under its own hash, and the rendered
      sets, live names and profiles. */
  ghost predicate Carries(files: Files, p: Pack, digest: Body -> Hash) {
    && (forall id :: id in p.lists ==> HasBlob(files, ListFile(id), p.lists[id], digest))
    && (forall id :: id in p.asns ==> HasBlob(files, AsnFile(id), p.asns[id], digest))
    && (forall id :: id in p.countries ==> HasBlob(files, CountryFile(id), p.countries[id], digest))
    && (forall id :: id in p.profiles ==> HasBody(files, ProfileFile(id), p.profiles[id]))
    && HasBody(files, SetsFile, p.sets) && HasBody(files, LiveFile, p.live)
  }

  predicate HasBlob(files: Files, q: Path, h: Hash, digest: Body -> Hash) {
    q in files && files[q].File? && digest(files[q].body) == h
  }

  predicate HasBody(files: Files, q: Path, body: Body) {
    q in files && files[q].File? && files[q].body == body
  }

  lemma GroupCarries(g: Group, group: map<string, Hash>, blobs: Blobs, at: nat, broken: set<Path>, digest: Body -> Hash, id: string)
    requires GroupWrites(g, Resolved(group, blobs), broken) && Addressed(blobs, digest) && id in group && !g.Profiles?
    ensures var e := GroupEntry(g, Resolved(group, blobs), group.Keys, at, Place(g, id));
            e.Some? && e.value.File? && digest(e.value.body) == group[id]
  {
    assert CanWrite(g, Resolved(group, blobs), broken, id);
  }

  /** Trees with the same files carry the same packs. */
  lemma CarriesListed(f: Files, g: Files, p: Pack, digest: Body -> Hash)
    requires Listed(f) == Listed(g) && Carries(f, p, digest)
    ensures Carries(g, p, digest)
  {
    forall q | q in f && f[q].File? ensures q in g && g[q] == f[q] {
      assert q in Listed(f) && Listed(f)[q] == f[q];
      assert q in Listed(g);
    }
  }

  lemma LaidHas(start: Files, p: Pack, blobs: Blobs, at: nat, files: Files, q: Path)
    requires LaidOver(start, p, blobs, at, files)
    ensures Wanted(p, blobs, at, q).Some? ==> q in files && files[q] == Wanted(p, blobs, at, q).value
  {
    assert Look(files, q) == Else(Wanted(p, blobs, at, q), Look(start, q));
  }

  /** A file of a group whose blobs were written. */
  lemma LaidBlob(start: Files, p: Pack, blobs: Blobs, at: nat, broken: set<Path>, files: Files, digest: Body -> Hash,
                 g: Group, group: map<string, Hash>, id: string)
    requires LaidOver(start, p, blobs, at, files) && GroupWrites(g, Resolved(group, blobs), broken)
    requires Addressed(blobs, digest) && id in group && !g.Profiles?
    requires Wanted(p, blobs, at, Place(g, id)) == GroupEntry(g, Resolved(group, blobs), group.Keys, at, Place(g, id))
    ensures HasBlob(files, Place(g, id), group[id], digest)
  {
    GroupCarries(g, group, blobs, at, broken, digest, id);
    LaidHas(start, p, blobs, at, files, Place(g, id));
  }

  /** A pack that was written from checked blobs is carried. */
  lemma LaidCarries(start: Files, p: Pack, blobs: Blobs, at: nat, broken: set<Path>, files: Files, digest: Body -> Hash)
    requires Writes(p, blobs, broken) && Addressed(blobs, digest) && LaidOver(start, p, blobs, at, files)
    ensures Carries(files, p, digest)
  {
    forall id | id in p.lists ensures HasBlob(files, ListFile(id), p.lists[id], digest) {
      LaidBlob(start, p, blobs, at, broken, files, digest, Lists, p.lists, id);
    }
    forall id | id in p.asns ensures HasBlob(files, AsnFile(id), p.asns[id], digest) {
      LaidBlob(start, p, blobs, at, broken, files, digest, Asns, p.asns, id);
    }
    forall id | id in p.countries ensures HasBlob(files, CountryFile(id), p.countries[id], digest) {
      LaidBlob(start, p, blobs, at, broken, files, digest, Countries, p.countries, id);
    }
    forall id | id in p.profiles ensures HasBody(files, ProfileFile(id), p.profiles[id]) {
      LaidHas(start, p, blobs, at, files, ProfileFile(id));
    }
    LaidHas(start, p, blobs, at, files, SetsFile);
    LaidHas(start, p, blobs, at, files, LiveFile);
  }

  // ---- runs ----

  datatype Input = Update(raw: Option<Pack>, env: Env) | Deleted | Timer(env: Env)

  datatype Attempt = Attempt(when: nat, raw: Option<Pack>, outcome: Outcome)

  /** The newest entry that was seen. */
  function Newest(inputs: seq<Input>): Option<Option<Pack>> {
    if inputs == [] then None
    else
      var last := inputs[|inputs| - 1];
      if last.Update? then Some(last.raw) else Newest(inputs[..|inputs| - 1])
  }

  /** The pack of the last attempt that went through. */
  function LastDone(log: seq<Attempt>): Option<Pack> {
    if log == [] then None
    else
      var last := log[|log| - 1];
      if last.outcome.Done? && last.raw.Some? then last.raw else LastDone(log[..|log| - 1])
  }

  /** The report is of this pack; with no pack, of what was reported at the start. */
  predicate Reports(r: Record, done: Option<Pack>, start: Record) {
    if done.Some? then r.hash == done.value.sha && r.rev == done.value.rev && r.names == done.value.profiles.Keys
    else r.hash == start.hash && r.rev == start.rev && r.names == start.names
  }

  /** What the last attempt that got past the parser and the comparison with the report says. */
  function Standing(log: seq<Attempt>, start: Status): Status {
    if log == [] then start
    else
      var last := log[|log| - 1].outcome;
      if last.Rejected? || last.Already? then Standing(log[..|log| - 1], start)
      else if last.Done? then Ok
      else Failed
  }

  /** An entry is passed over exactly when the last attempt of consequence went through and it is that attempt's pack, by its
      hash and its revision; before any such attempt, what was reported at the start. */
  predicate PassedOver(log: seq<Attempt>, start: Record, j: nat)
    requires j < |log|
  {
    var done := LastDone(log[..j]);
    log[j].outcome.Already? <==>
    (log[j].raw.Some? && Standing(log[..j], start.apply).Ok? &&
     (if done.Some? then log[j].raw.value.sha == done.value.sha && log[j].raw.value.rev == done.value.rev
      else log[j].raw.value.sha == start.hash && log[j].raw.value.rev == start.rev))
  }

  lemma PassedOverStep(log: seq<Attempt>, a: Attempt, start: Record)
    requires forall j :: 0 <= j < |log| ==> PassedOver(log, start, j)
    requires PassedOver(log + [a], start, |log|)
    ensures forall j :: 0 <= j < |log + [a]| ==> PassedOver(log + [a], start, j)
  {
    var log' := log + [a];
    forall j | 0 <= j < |log'| ensures PassedOver(log', start, j) {
      if j < |log| {
        assert log'[..j] == log[..j] && log'[j] == log[j];
        assert PassedOver(log, start, j);
      }
    }
  }

  /** The attempt takes the entry that is newest at the time. */
  predicate TakesNewest(inputs: seq<Input>, n: nat, a: Attempt)
    requires n <= |inputs|
  {
    a.when < n && Newest(inputs[..a.when + 1]) == Some(a.raw)
  }

  /** The last attempt before this input. */
  function LastBefore(log: seq<Attempt>, i: nat): Option<Attempt> {
    if log == [] then None
    else if log[|log| - 1].when < i then Some(log[|log| - 1])
    else LastBefore(log[..|log| - 1], i)
  }

  predicate Tried(log: seq<Attempt>, i: nat) {
    exists j :: 0 <= j < |log| && log[j].when == i
  }

  /** An entry is due when it comes, and again at each timer as long as its blobs could not be fetched. */
  predicate Due(inputs: seq<Input>, log: seq<Attempt>, i: nat)
    requires i < |inputs|
  {
    var b := LastBefore(log, i);
    inputs[i].Update? || (inputs[i].Timer? && b.Some? && b.value.outcome.Unfetched?)
  }

  /** An attempt that a timer starts follows one at the same entry that could not fetch its blobs. */
  predicate RetriesFetch(inputs: seq<Input>, log: seq<Attempt>, j: nat)
    requires j < |log| && log[j].when < |inputs|
  {
    inputs[log[j].when].Timer? ==> j > 0 && log[j - 1].outcome.Unfetched? && log[j - 1].raw == log[j].raw
  }

  /** After `n` inputs: the attempts are in the order of the inputs, each takes the newest entry, one that a timer starts
      follows an attempt at the same entry, and an input brings an attempt exactly when one is due. */
  ghost predicate Orderly(inputs: seq<Input>, n: nat, log: seq<Attempt>) {
    && n <= |inputs|
    && (forall j :: 0 <= j < |log| ==> TakesNewest(inputs, n, log[j]) && RetriesFetch(inputs, log, j))
    && (forall j :: 0 < j < |log| ==> log[j - 1].when < log[j].when)
    && (forall i :: 0 <= i < n ==> (Tried(log, i) <==> Due(inputs, log, i)))
  }

  /** A retry is armed exactly when the last attempt could not fetch its blobs; the entry that waits is the newest, and that
      attempt's. */
  predicate Waits(inputs: seq<Input>, n: nat, log: seq<Attempt>, pending: Option<Option<Pack>>, retry: bool)
    requires n <= |inputs|
  {
    && (retry <==> log != [] && log[|log| - 1].outcome.Unfetched?)
    && (retry ==> Newest(inputs[..n]) == pending && pending == Some(log[|log| - 1].raw))
  }

  lemma NewestStep(inputs: seq<Input>, n: nat)
    requires n < |inputs|
    ensures Newest(inputs[..n + 1]) == if inputs[n].Update? then Some(inputs[n].raw) else Newest(inputs[..n])
  {
    assert inputs[..n + 1][..n] == inputs[..n];
  }

  lemma OrderlyIdle(inputs: seq<Input>, n: nat, log: seq<Attempt>)
    requires Orderly(inputs, n, log) && n < |inputs| && !Due(inputs, log, n)
    ensures Orderly(inputs, n + 1, log)
  {
  }

  lemma OrderlyTry(inputs: seq<Input>, n: nat, log: seq<Attempt>, raw: Option<Pack>, o: Outcome)
    requires Orderly(inputs, n, log) && n < |inputs| && Newest(inputs[..n + 1]) == Some(raw) && Due(inputs, log, n)
    requires inputs[n].Timer? ==> log[|log| - 1].raw == raw
    ensures Orderly(inputs, n + 1, log + [Attempt(n, raw, o)])
  {
    var a := Attempt(n, raw, o);
    forall j | 0 <= j < |log + [a]| ensures TakesNewest(inputs, n + 1, (log + [a])[j]) && RetriesFetch(inputs, log + [a], j) {
      if j < |log| { StillRetries(inputs, n, log, a, j); }
    }
    forall i | 0 <= i < n + 1 ensures Tried(log + [a], i) <==> Due(inputs, log + [a], i) {
      StillTried(log, a, i);
      StillDue(inputs, log, a, i);
    }
  }

  lemma StillRetries(inputs: seq<Input>, n: nat, log: seq<Attempt>, a: Attempt, j: nat)
    requires n < |inputs| && j < |log| && TakesNewest(inputs, n, log[j]) && RetriesFetch(inputs, log, j)
    ensures TakesNewest(inputs, n + 1, (log + [a])[j]) && RetriesFetch(inputs, log + [a], j)
  {
    assert (log + [a])[j] == log[j] && (j > 0 ==> (log + [a])[j - 1] == log[j - 1]);
  }

  lemma StillTried(log: seq<Attempt>, a: Attempt, i: nat)
    ensures Tried(log + [a], i) <==> Tried(log, i) || a.when == i
  {
    var log' := log + [a];
    assert log'[|log|] == a;
    if Tried(log, i) {
      var j :| 0 <= j < |log| && log[j].when == i;
      assert log'[j].when == i;
    }
  }

  lemma StillDue(inputs: seq<Input>, log: seq<Attempt>, a: Attempt, i: nat)
    requires i < |inputs| && i <= a.when
    ensures Due(inputs, log + [a], i) <==> Due(inputs, log, i)
  {
    assert (log + [a])[..|log|] == log;
  }

  /** The log is orderly, and the retry is armed as it says. */
  ghost predicate Steady(inputs: seq<Input>, n: nat, log: seq<Attempt>, pending: Option<Option<Pack>>, retry: bool) {
    Orderly(inputs, n, log) && Waits(inputs, n, log, pending, retry)
  }

  lemma SteadyTry(inputs: seq<Input>, n: nat, log: seq<Attempt>, pending: Option<Option<Pack>>, retry: bool, a: Attempt)
    requires Steady(inputs, n, log, pending, retry) && n < |inputs| && a.when == n
    requires if inputs[n].Update? then a.raw == inputs[n].raw else inputs[n].Timer? && retry && Some(a.raw) == pending
    ensures var again := a.outcome.Unfetched?;
            Steady(inputs, n + 1, log + [a], if again then Some(a.raw) else None, again)
  {
    NewestStep(inputs, n);
    OrderlyTry(inputs, n, log, a.raw, a.outcome);
  }

  lemma SteadyIdle(inputs: seq<Input>, n: nat, log: seq<Attempt>, pending: Option<Option<Pack>>, retry: bool)
    requires Steady(inputs, n, log, pending, retry) && n < |inputs| && !inputs[n].Update? && !(inputs[n].Timer? && retry)
    ensures Steady(inputs, n + 1, log, pending, retry)
  {
    NewestStep(inputs, n);
    OrderlyIdle(inputs, n, log);
  }

  lemma LastDoneStep(log: seq<Attempt>, a: Attempt)
    ensures LastDone(log + [a]) == if a.outcome.Done? && a.raw.Some? then a.raw else LastDone(log)
    ensures forall start :: Standing(log + [a], start) == if a.outcome.Rejected? || a.outcome.Already? then Standing(log, start)
                                                          else if a.outcome.Done? then Ok else Failed
  {
    assert (log + [a])[..|log|] == log;
  }

  /** Removals of a rejected tree work. */
  predicate AllClear(inputs: seq<Input>, n: nat)
    requires n <= |inputs|
  {
    forall i :: 0 <= i < n && !inputs[i].Deleted? ==> inputs[i].env.faults.clearLive.None?
  }

  class Watcher {
    const node: Node
    const digest: Body -> Hash
    var record: Record

    ghost predicate Valid()
      reads this, node
    {
      node.Valid()
    }

    /** The pack's tree is live, and the snapshot was built from it. */
    ghost predicate Loaded(p: Pack)
      reads this, node
    {
      Kept(p) && node.live.Some? && BuiltFrom(node.origin, Data, node.live.value) && Carries(node.live.value, p, digest)
    }

    /** The snapshot was built from a tree of the pack. */
    ghost predicate Kept(p: Pack)
      reads this, node
    {
      node.origin.Some? && node.origin.value.root.Data? && Carries(node.origin.value.files, p, digest)
    }

    constructor (node: Node, digest: Body -> Hash)
      requires node.Valid()
      ensures Valid() && this.node == node && this.digest == digest && record == Record("", 0, Never, {})
    {
      this.node, this.digest, record := node, digest, Record("", 0, Never, {});
    }

    /** `handle`. Its answer asks for a retry exactly when the blobs could not be fetched. */
    method Handle(raw: Option<Pack>, e: Env) returns (o: Outcome)
      requires Valid()
      modifies this`record, node
      ensures Valid()
      ensures o.Rejected? <==> raw.None?
      ensures o.Already? <==> (raw.Some? && old(record).apply.Ok? &&
                               old(record).hash == raw.value.sha && old(record).rev == raw.value.rev)
      ensures o.NoStore? <==> raw.Some? && !Current(old(record), raw.value) && !e.hasStore
      ensures o.Unfetched? <==> (raw.Some? && !Current(old(record), raw.value) && e.hasStore &&
                                 Hashes(raw.value) != {} && (e.down || !Fetchable(Hashes(raw.value), e.held, digest)))
      ensures o.Done? || o.Broken? <==> Reached(old(record), raw, e, digest)
      ensures forall t :: raw.Some? && StagedTree(old(node.next), raw.value, e, t) ==>
                (o.Done? <==> Reached(old(record), raw, e, digest) &&
                              old(node.Succeeds(raw.value, Given(Hashes(raw.value), e.held), e.faults, t)))
      ensures o.Rejected? || o.Already? ==> record == old(record)
      ensures o.NoStore? || o.Unfetched? || o.Broken? ==> record == old(record).(apply := Failed)
      ensures o.Done? ==> record == Record(raw.value.sha, raw.value.rev, Ok, raw.value.profiles.Keys)
      ensures o.Done? ==> Loaded(raw.value)
      ensures !o.Done? && old(node.Aligned()) ==> node.cur == old(node.cur) && node.origin == old(node.origin)
      ensures !o.Done? && Undoes(e.faults) ==> node.live == old(node.live)
      ensures old(node.Aligned()) && e.faults.clearLive.None? ==> node.Aligned()
    {
      if raw.None? {
        return Rejected;
      }
      var p := raw.value;
      if Current(record, p) {
        return Already;
      }
      if !e.hasStore {
        record := record.(apply := Failed);
        return NoStore;
      }
      var blobs := FetchBlobs(p, e.held, e.down, digest);
      if blobs.None? {
        record := record.(apply := Failed);
        return Unfetched;
      }
      ghost var left := Inside(Removed(node.next, e.faults.clearNext));
      var ok := node.Apply(p, blobs.value, e.at, e.faults);
      if !ok {
        record := record.(apply := Failed);
        return Broken;
      }
      LaidCarries(left, p, blobs.value, e.at, e.faults.broken, node.live.value, digest);
      CarriesListed(node.live.value, node.origin.value.files, p, digest);
      record := Record(p.sha, p.rev, Ok, p.profiles.Keys);
      return Done;
    }

    /** The report is of the last pack that went through, and that pack alone is passed over; and while all is clear, so is
        the snapshot. */
    ghost predicate Follows(log: seq<Attempt>, record0: Record, cur0: Option<Desired.Loaded>, origin0: Option<Origin>, clear: bool)
      reads this, node
    {
      && Reports(record, LastDone(log), record0)
      && record.apply == Standing(log, record0.apply)
      && (forall j :: 0 <= j < |log| ==> PassedOver(log, record0, j))
      && (clear ==>
            && node.Aligned()
            && (LastDone(log).None? ==> node.cur == cur0 && node.origin == origin0)
            && (LastDone(log).Some? ==> Kept(LastDone(log).value)))
    }

    method Try(when: nat, raw: Option<Pack>, env: Env, log: seq<Attempt>,
               ghost record0: Record, ghost cur0: Option<Desired.Loaded>, ghost origin0: Option<Origin>, ghost clear: bool)
      returns (a: Attempt)
      requires Valid() && Follows(log, record0, cur0, origin0, clear)
      modifies this`record, node
      ensures Valid() && a.when == when && a.raw == raw
      ensures Follows(log + [a], record0, cur0, origin0, clear && env.faults.clearLive.None?)
    {
      var o := Handle(raw, env);
      a := Attempt(when, raw, o);
      LastDoneStep(log, a);
      assert (log + [a])[..|log|] == log;
      PassedOverStep(log, a, record0);
    }

    /** One input of the loop: an entry is tried, a timer that is armed tries the entry that waits. */
    method Take(inputs: seq<Input>, i: nat, log: seq<Attempt>, pending: Option<Option<Pack>>, retry: bool,
                ghost record0: Record, ghost cur0: Option<Desired.Loaded>, ghost origin0: Option<Origin>, ghost clear: bool)
      returns (log': seq<Attempt>, pending': Option<Option<Pack>>, retry': bool)
      requires i < |inputs| && Steady(inputs, i, log, pending, retry)
      requires Valid() && Follows(log, record0, cur0, origin0, clear)
      modifies this`record, node
      ensures Steady(inputs, i + 1, log', pending', retry')
      ensures Valid()
      ensures Follows(log', record0, cur0, origin0, clear && (!inputs[i].Deleted? ==> inputs[i].env.faults.clearLive.None?))
    {
      log', pending', retry' := log, pending, retry;
      if inputs[i].Update? || (inputs[i].Timer? && retry) {
        var raw := if inputs[i].Update? then inputs[i].raw else pending.value;
        var a := Try(i, raw, inputs[i].env, log, record0, cur0, origin0, clear);
        SteadyTry(inputs, i, log, pending, retry, a);
        log', retry' := log + [a], a.outcome.Unfetched?;
        pending' := if retry' then Some(raw) else None;
      } else {
        SteadyIdle(inputs, i, log, pending, retry);
      }
    }

    /** The loop of `Watch` over everything that reaches it. Each entry is tried when it comes; a timer retries
        the newest entry exactly when its blobs could not be fetched; the report is of the last pack that went
        through, that pack is passed over as long as nothing else was tried, and while removals of a rejected
        tree work, that pack's tree is what is loaded. */
    method Run(inputs: seq<Input>) returns (log: seq<Attempt>)
      requires Valid()
      modifies this`record, node
      ensures Valid() && Orderly(inputs, |inputs|, log)
      ensures Follows(log, old(record), old(node.cur), old(node.origin), old(node.Aligned()) && AllClear(inputs, |inputs|))
    {
      log := [];
      var pending: Option<Option<Pack>>, retry := None, false;
      ghost var record0, cur0, origin0, clear := record, node.cur, node.origin, node.Aligned();
      for i := 0 to |inputs|
        invariant Valid() && Follows(log, record0, cur0, origin0, clear && AllClear(inputs, i))
        invariant Steady(inputs, i, log, pending, retry)
      {
        log, pending, retry := Take(inputs, i, log, pending, retry, record0, cur0, origin0, clear && AllClear(inputs, i));
      }
    }
  }
}
