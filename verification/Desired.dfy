/** The generation swap of internal/desired: a pack is written beside the live tree, the live tree is
    parked, the new one promoted and loaded, and each step undone when a later one fails. */
module Desired {
  import opened Bits
  import Netip
  import Netset
  import opened Store

  type Hash = string
  type Body = string

  /** A place in a policy tree. */
  datatype Path = Dir(name: string) | ListFile(id: string) | AsnFile(id: string) | CountryDir(id: string)
    | CountryFile(id: string) | ProfileFile(id: string) | SetsFile | LiveFile

  datatype Entry = Folder | File(body: Body, stamp: nat)

  type Files = map<Path, Entry>

  /** A parsed pack, its sets, live names and profiles already rendered as the files they become. */
  datatype Pack = Pack(
    sha: Hash, rev: int,
    lists: map<string, Hash>, asns: map<string, Hash>, countries: map<string, Hash>,
    sets: Body, live: Body, profiles: map<string, Body>)

  type Blobs = map<Hash, Body>

  // ---- the tree of a pack ----

  datatype Group = Lists | Asns | Countries | Profiles

  function Place(g: Group, id: string): Path {
    match g
    case Lists => ListFile(id)
    case Asns => AsnFile(id)
    case Countries => CountryFile(id)
    case Profiles => ProfileFile(id)
  }

  /** The bodies behind a group's hashes; none where the blob is missing. */
  function Resolved(group: map<string, Hash>, blobs: Blobs): map<string, Option<Body>> {
    map id | id in group :: if group[id] in blobs then Some(blobs[group[id]]) else None
  }

  function Rendered(group: map<string, Body>): map<string, Option<Body>> {
    map id | id in group :: Some(group[id])
  }

  function OfGroup(q: Path): Option<Group> {
    match q
    case ListFile(_) => Some(Lists)
    case AsnFile(_) => Some(Asns)
    case CountryFile(_) => Some(Countries)
    case ProfileFile(_) => Some(Profiles)
    case _ => None
  }

  /** What a group puts at a path, of the bodies under `ids`. */
  function GroupEntry(g: Group, bodies: map<string, Option<Body>>, ids: set<string>, at: nat, q: Path): Option<Entry> {
    if OfGroup(q) == Some(g) && q.id in ids && q.id in bodies && bodies[q.id].Some?
    then Some(File(bodies[q.id].value, at))
    else if g.Countries? && q.CountryDir? && q.id in ids then Some(Folder)
    else None
  }

  const SKELETON := ["lists", "asns", "profiles", "geo"]

  /** What a pack puts at a path. */
  function Wanted(p: Pack, blobs: Blobs, at: nat, q: Path): Option<Entry> {
    match q
    case Dir(n) => if n in SKELETON then Some(Folder) else None
    case SetsFile => Some(File(p.sets, at))
    case LiveFile => Some(File(p.live, at))
    case ListFile(_) => GroupEntry(Lists, Resolved(p.lists, blobs), p.lists.Keys, at, q)
    case AsnFile(_) => GroupEntry(Asns, Resolved(p.asns, blobs), p.asns.Keys, at, q)
    case CountryFile(_) => GroupEntry(Countries, Resolved(p.countries, blobs), p.countries.Keys, at, q)
    case CountryDir(_) => GroupEntry(Countries, Resolved(p.countries, blobs), p.countries.Keys, at, q)
    case ProfileFile(_) => GroupEntry(Profiles, Rendered(p.profiles), p.profiles.Keys, at, q)
  }

  function Look(files: Files, q: Path): Option<Entry> {
    if q in files then Some(files[q]) else None
  }

  function Else(e: Option<Entry>, other: Option<Entry>): Option<Entry> {
    if e.Some? then e else other
  }

  /** What a pack puts, over what was in the directory. */
  ghost predicate LaidOver(start: Files, p: Pack, blobs: Blobs, at: nat, files: Files) {
    forall q :: Look(files, q) == Else(Wanted(p, blobs, at, q), Look(start, q))
  }

  /** The pack puts something at every path of the directory. */
  predicate Replaced(start: Files, p: Pack, blobs: Blobs, at: nat) {
    forall q :: q in start ==> Wanted(p, blobs, at, q).Some?
  }

  /** What a pack puts, and nothing else. */
  ghost predicate TreeOfPack(p: Pack, blobs: Blobs, at: nat, files: Files) {
    forall q :: Look(files, q) == Wanted(p, blobs, at, q)
  }

  /** A pack has one tree over any directory. */
  lemma OneTree(start: Files, p: Pack, blobs: Blobs, at: nat, x: Files, y: Files)
    requires LaidOver(start, p, blobs, at, x) && LaidOver(start, p, blobs, at, y)
    ensures x == y
  {
    forall q ensures q in x <==> q in y
             ensures q in x ==> x[q] == y[q] {
      assert Look(x, q) == Else(Wanted(p, blobs, at, q), Look(start, q)) == Look(y, q);
    }
  }

  /** Laid over a directory, a pack gives its own tree if and only if it replaces everything that was there. */
  lemma CleanIff(start: Files, p: Pack, blobs: Blobs, at: nat, t: Files)
    requires LaidOver(start, p, blobs, at, t)
    ensures TreeOfPack(p, blobs, at, t) <==> Replaced(start, p, blobs, at)
  {
    forall q ensures Look(t, q) == Else(Wanted(p, blobs, at, q), Look(start, q)) {
    }
    if Replaced(start, p, blobs, at) {
      forall q ensures Look(t, q) == Wanted(p, blobs, at, q) {
        if q in start { assert Wanted(p, blobs, at, q).Some?; }
      }
    } else {
      var q :| q in start && Wanted(p, blobs, at, q).None?;
      assert Look(t, q) == Look(start, q) != Wanted(p, blobs, at, q);
    }
  }

  predicate CanWrite(g: Group, bodies: map<string, Option<Body>>, broken: set<Path>, id: string)
    requires id in bodies
  {
    bodies[id].Some? && Place(g, id) !in broken && (g.Countries? ==> CountryDir(id) !in broken)
  }

  predicate GroupWrites(g: Group, bodies: map<string, Option<Body>>, broken: set<Path>) {
    forall id :: id in bodies ==> CanWrite(g, bodies, broken, id)
  }

  /** Everything a pack asks for can be written: its blobs are there and no path is broken. */
  predicate Writes(p: Pack, blobs: Blobs, broken: set<Path>) {
    && (forall i :: 0 <= i < |SKELETON| ==> Dir(SKELETON[i]) !in broken)
    && GroupWrites(Lists, Resolved(p.lists, blobs), broken)
    && GroupWrites(Asns, Resolved(p.asns, blobs), broken)
    && GroupWrites(Countries, Resolved(p.countries, blobs), broken)
    && SetsFile !in broken && LiveFile !in broken
    && GroupWrites(Profiles, Rendered(p.profiles), broken)
  }

  ghost predicate GroupOver(start: Files, g: Group, bodies: map<string, Option<Body>>, ids: set<string>, at: nat, files: Files) {
    forall q :: Look(files, q) == Else(GroupEntry(g, bodies, ids, at, q), Look(start, q))
  }

  function Put(files: Files, g: Group, id: string, body: Body, at: nat): Files {
    (if g.Countries? then files[CountryDir(id) := Folder] else files)[Place(g, id) := File(body, at)]
  }

  lemma OneMore(start: Files, g: Group, bodies: map<string, Option<Body>>, ids: set<string>, at: nat, files: Files, id: string)
    requires GroupOver(start, g, bodies, ids, at, files) && id in bodies && bodies[id].Some?
    ensures GroupOver(start, g, bodies, ids + {id}, at, Put(files, g, id, bodies[id].value, at))
  {
    var files' := Put(files, g, id, bodies[id].value, at);
    forall q ensures Look(files', q) == Else(GroupEntry(g, bodies, ids + {id}, at, q), Look(start, q)) {
      assert Look(files, q) == Else(GroupEntry(g, bodies, ids, at, q), Look(start, q));
    }
  }

  /** One loop of `write`. */
  method WriteGroup(start: Files, g: Group, bodies: map<string, Option<Body>>, ids: set<string>, at: nat, broken: set<Path>)
    returns (files: Files, ok: bool)
    requires ids == bodies.Keys
    ensures ok <==> GroupWrites(g, bodies, broken)
    ensures ok ==> GroupOver(start, g, bodies, ids, at, files)
  {
    files := start;
    var todo := ids;
    while todo != {}
      invariant todo <= bodies.Keys && GroupOver(start, g, bodies, bodies.Keys - todo, at, files)
      invariant forall id :: id in bodies && id !in todo ==> CanWrite(g, bodies, broken, id)
      decreases |todo|
    {
      var id :| id in todo;
      if !CanWrite(g, bodies, broken, id) {
        return files, false;
      }
      OneMore(start, g, bodies, bodies.Keys - todo, at, files, id);
      files := Put(files, g, id, bodies[id].value, at);
      assert bodies.Keys - todo + {id} == bodies.Keys - (todo - {id});
      todo := todo - {id};
    }
    assert bodies.Keys - todo == bodies.Keys;
    return files, true;
  }

  ghost predicate DirsOver(start: Files, files: Files) {
    forall q :: Look(files, q) == if q.Dir? && q.name in SKELETON then Some(Folder) else Look(start, q)
  }

  /** The layers of a pack, one over the other, are the pack. */
  lemma Layers(start: Files, dirs: Files, lists: Files, asns: Files, lands: Files, files: Files, p: Pack, blobs: Blobs, at: nat)
    requires DirsOver(start, dirs)
    requires GroupOver(dirs, Lists, Resolved(p.lists, blobs), p.lists.Keys, at, lists)
    requires GroupOver(lists, Asns, Resolved(p.asns, blobs), p.asns.Keys, at, asns)
    requires GroupOver(asns, Countries, Resolved(p.countries, blobs), p.countries.Keys, at, lands)
    requires GroupOver(lands[SetsFile := File(p.sets, at)][LiveFile := File(p.live, at)],
                       Profiles, Rendered(p.profiles), p.profiles.Keys, at, files)
    ensures LaidOver(start, p, blobs, at, files)
  {
    forall q ensures Look(files, q) == Else(Wanted(p, blobs, at, q), Look(start, q)) {
      var bodies := lands[SetsFile := File(p.sets, at)][LiveFile := File(p.live, at)];
      assert Look(files, q) == Else(GroupEntry(Profiles, Rendered(p.profiles), p.profiles.Keys, at, q), Look(bodies, q));
      assert Look(lands, q) == Else(GroupEntry(Countries, Resolved(p.countries, blobs), p.countries.Keys, at, q), Look(asns, q));
      assert Look(asns, q) == Else(GroupEntry(Asns, Resolved(p.asns, blobs), p.asns.Keys, at, q), Look(lists, q));
      assert Look(lists, q) == Else(GroupEntry(Lists, Resolved(p.lists, blobs), p.lists.Keys, at, q), Look(dirs, q));
      OneLayer(p, blobs, at, q, Look(start, q), Look(dirs, q), Look(lists, q), Look(asns, q), Look(lands, q), Look(bodies, q), Look(files, q));
    }
  }

  /** At one path, at most one layer has something to say. */
  lemma OneLayer(p: Pack, blobs: Blobs, at: nat, q: Path, start: Option<Entry>, dirs: Option<Entry>, lists: Option<Entry>,
                 asns: Option<Entry>, lands: Option<Entry>, bodies: Option<Entry>, files: Option<Entry>)
    requires dirs == if q.Dir? && q.name in SKELETON then Some(Folder) else start
    requires lists == Else(GroupEntry(Lists, Resolved(p.lists, blobs), p.lists.Keys, at, q), dirs)
    requires asns == Else(GroupEntry(Asns, Resolved(p.asns, blobs), p.asns.Keys, at, q), lists)
    requires lands == Else(GroupEntry(Countries, Resolved(p.countries, blobs), p.countries.Keys, at, q), asns)
    requires bodies == if q.SetsFile? then Some(File(p.sets, at)) else if q.LiveFile? then Some(File(p.live, at)) else lands
    requires files == Else(GroupEntry(Profiles, Rendered(p.profiles), p.profiles.Keys, at, q), bodies)
    ensures files == Else(Wanted(p, blobs, at, q), start)
  {
  }

  method MakeDirs(start: Files, broken: set<Path>) returns (files: Files, ok: bool)
    ensures ok <==> forall i :: 0 <= i < |SKELETON| ==> Dir(SKELETON[i]) !in broken
    ensures ok ==> DirsOver(start, files)
  {
    files := start;
    for i := 0 to |SKELETON|
      invariant forall j :: 0 <= j < i ==> Dir(SKELETON[j]) !in broken
      invariant forall q :: Look(files, q) == if q.Dir? && q.name in SKELETON[..i] then Some(Folder) else Look(start, q)
    {
      if Dir(SKELETON[i]) in broken {
        return files, false;
      }
      assert SKELETON[..i + 1] == SKELETON[..i] + [SKELETON[i]];
      files := files[Dir(SKELETON[i]) := Folder];
    }
    assert SKELETON[..|SKELETON|] == SKELETON;
    return files, true;
  }

  /** `write`: it succeeds exactly when everything can be written, and then the pack lies over what was
      in the directory. */
  method Stage(start: Files, p: Pack, blobs: Blobs, at: nat, broken: set<Path>) returns (files: Files, ok: bool)
    ensures ok <==> Writes(p, blobs, broken)
    ensures ok ==> LaidOver(start, p, blobs, at, files)
  {
    files, ok := MakeDirs(start, broken);
    if !ok {
      return;
    }
    ghost var dirs := files;
    files, ok := WriteGroup(files, Lists, Resolved(p.lists, blobs), p.lists.Keys, at, broken);
    if !ok {
      return;
    }
    ghost var lists := files;
    files, ok := WriteGroup(files, Asns, Resolved(p.asns, blobs), p.asns.Keys, at, broken);
    if !ok {
      return;
    }
    ghost var asns := files;
    files, ok := WriteGroup(files, Countries, Resolved(p.countries, blobs), p.countries.Keys, at, broken);
    if !ok {
      return;
    }
    ghost var lands := files;
    if SetsFile in broken || LiveFile in broken {
      return files, false;
    }
    files := files[SetsFile := File(p.sets, at)][LiveFile := File(p.live, at)];
    files, ok := WriteGroup(files, Profiles, Rendered(p.profiles), p.profiles.Keys, at, broken);
    if ok {
      Layers(start, dirs, lists, asns, lands, files, p, blobs, at);
    }
  }

  // ---- blobs ----

  /** The blobs are content-addressed: each hashes to the name it is kept under. */
  predicate Addressed(blobs: Blobs, digest: Body -> Hash) {
    forall h :: h in blobs ==> digest(blobs[h]) == h
  }

  predicate Fetchable(hashes: set<Hash>, held: Blobs, digest: Body -> Hash) {
    forall h :: h in hashes ==> h in held && digest(held[h]) == h
  }

  function Hashes(p: Pack): set<Hash> {
    p.lists.Values + p.countries.Values + p.asns.Values
  }

  /** What a store that holds them gives for these hashes. */
  function Given(hashes: set<Hash>, held: Blobs): Blobs {
    map h | h in hashes && h in held :: held[h]
  }

  method FetchAll(hashes: set<Hash>, held: Blobs, digest: Body -> Hash) returns (r: Option<Blobs>)
    ensures r.Some? <==> Fetchable(hashes, held, digest)
    ensures r.Some? ==> r.value == Given(hashes, held) && r.value.Keys == hashes && Addressed(r.value, digest)
  {
    var out: Blobs := map[];
    var todo := hashes;
    while todo != {}
      invariant todo <= hashes && out.Keys == hashes - todo && Addressed(out, digest)
      invariant forall h :: h in hashes && h !in todo ==> h in held && digest(held[h]) == h && out[h] == held[h]
      decreases |todo|
    {
      var h :| h in todo;
      if h !in held || digest(held[h]) != h {
        return None;
      }
      out := out[h := held[h]];
      todo := todo - {h};
    }
    return Some(out);
  }

  /** `FetchBlobs`: every blob of the pack, checked against its hash, or none. */
  method FetchBlobs(p: Pack, held: Blobs, down: bool, digest: Body -> Hash) returns (r: Option<Blobs>)
    ensures r.Some? <==> Hashes(p) == {} || (!down && Fetchable(Hashes(p), held, digest))
    ensures r.Some? ==> r.value == Given(Hashes(p), held) && r.value.Keys == Hashes(p) && Addressed(r.value, digest)
  {
    if Hashes(p) == {} {
      return Some(map[]);
    }
    if down {
      return None;
    }
    r := FetchAll(Hashes(p), held, digest);
  }

  // ---- three slots and a store ----

  datatype Root = Image | Data

  type ReadyTree = t: Tree | TreeReadable(t) witness Tree(map[], map[], map[], map[], map[], [])

  datatype Loaded = Loaded(print_: string, snap: Snapshot, gen: nat)

  /** The files of a tree, without its folders: what a fingerprint is taken of. */
  type Listing = f: Files | forall q :: q in f ==> f[q].File? witness map[]

  function Listed(f: Files): Listing {
    map q | q in f && f[q].File? :: f[q]
  }

  /** Equal fingerprints mean the same files in the same place. */
  ghost predicate Telling(fingerprint: (Root, Listing) -> string) {
    forall r, f, r', f' :: fingerprint(r, f) == fingerprint(r', f') ==> r == r' && f == f'
  }

  /** Two trees have the same listing if and only if they have the same files. */
  lemma ListedIff(f: Files, g: Files)
    ensures Listed(f) == Listed(g) <==>
            forall q :: (q in f && f[q].File?) == (q in g && g[q].File?) && (q in f && f[q].File? ==> f[q] == g[q])
  {
    assert forall q :: q in Listed(f) <==> q in f && f[q].File?;
    assert forall q :: q in Listed(g) <==> q in g && g[q].File?;
    if Listed(f) == Listed(g) {
      forall q | q in f && f[q].File? ensures q in g && g[q] == f[q] {
        assert Listed(f)[q] == f[q] && Listed(g)[q] == g[q];
      }
    }
  }

  /** A directory more is another tree with the same listing. */
  lemma FolderUnseen(f: Files, q: Path)
    requires q !in f
    ensures f[q := Folder] != f && Listed(f[q := Folder]) == Listed(f)
  {
    ListedIff(f[q := Folder], f);
  }

  /** What a snapshot was built from. */
  datatype Origin = Origin(root: Root, files: Files)

  /** The snapshot was built in this place from a tree with these files. */
  ghost predicate BuiltFrom(o: Option<Origin>, r: Root, f: Files) {
    o.Some? && o.value.root == r && Listed(o.value.files) == Listed(f)
  }

  /** A term by which the meaning of `Node.compiled` is asked for. */
  predicate Asked(f: Files, s: Snapshot) { true }

  /** What goes wrong in one swap. A removal that fails may leave some of what it had to remove. */
  datatype Faults = Faults(
    mkdir: bool, clearNext: Option<set<Path>>, broken: set<Path>, dropNext: Option<set<Path>>,
    clearPrev: Option<set<Path>>, park: bool, promote: bool, undo: bool,
    reload: bool, clearLive: Option<set<Path>>, restore: bool, again: bool, dropPrev: Option<set<Path>>)

  const CALM := Faults(false, None, {}, None, None, false, false, false, false, None, false, false, None)

  /** `os.RemoveAll`. */
  function Removed(slot: Option<Files>, left: Option<set<Path>>): Option<Files> {
    if slot.None? || left.None? then None
    else Some(map q | q in slot.value && q in left.value :: slot.value[q])
  }

  /** `os.Rename` refuses a target that is a directory, an empty one included. */
  predicate Renames(source: Option<Files>, target: Option<Files>, fault: bool) {
    source.Some? && !fault && target.None?
  }

  function Inside(slot: Option<Files>): Files {
    if slot.Some? then slot.value else map[]
  }

  /** No step that puts the old tree back fails. */
  predicate Undoes(f: Faults) {
    !f.undo && f.clearLive.None? && !f.restore
  }

  /** The live tree can be parked, or there is none. */
  predicate Parks(live: Option<Files>, prev: Option<Files>, f: Faults) {
    !f.park && (live.None? || Renames(live, Removed(prev, f.clearPrev), false))
  }

  class Node {
    const read: Files -> Option<ReadyTree>
    const fingerprint: (Root, Listing) -> string
    const image: Option<Files>
    /** The snapshot is the tree of these files, compiled. */
    ghost const compiled: (Files, Snapshot) -> bool
    var live: Option<Files>
    var next: Option<Files>
    var prev: Option<Files>
    var cur: Option<Loaded>
    var gen: nat
    var root: Root
    ghost var origin: Option<Origin>

    ghost predicate Compiles() {
      forall f, s {:trigger Asked(f, s)} ::
        Asked(f, s) ==> (compiled(f, s) <==> read(f).Some? && SnapshotOf(read(f).value, s))
    }

    ghost predicate Valid()
      reads this
    {
      && Telling(fingerprint) && Compiles() && cur.Some? == origin.Some?
      && (cur.Some? ==>
            && cur.value.print_ == fingerprint(origin.value.root, Listed(origin.value.files))
            && compiled(origin.value.files, cur.value.snap))
    }

    /** The store's `build` accepts the tree. */
    predicate Builds(f: Files) {
      read(f).Some? && Loads(read(f).value)
    }

    function At(r: Root): Option<Files>
      reads this
    {
      if r.Image? then image else live
    }

    /** The snapshot was built from the live tree, or there is no live tree. */
    ghost predicate Aligned()
      reads this
    {
      live.None? || BuiltFrom(origin, Data, live.value)
    }

    constructor (read: Files -> Option<ReadyTree>, fingerprint: (Root, Listing) -> string, image: Option<Files>,
                 live: Option<Files>, next: Option<Files>, prev: Option<Files>)
      requires Telling(fingerprint)
      ensures Valid() && this.live == live && this.next == next && this.prev == prev && cur.None? && root == Image
      ensures this.read == read && this.fingerprint == fingerprint && this.image == image
    {
      this.read, this.fingerprint, this.image := read, fingerprint, image;
      compiled := (f, s) => read(f).Some? && SnapshotOf(read(f).value, s);
      this.live, this.next, this.prev := live, next, prev;
      cur, gen, root, origin := None, 0, Image, None;
    }

    /** `reload`: it succeeds exactly when the tree is there, can be read, and is accepted or has the files of the
        tree that is loaded; a failure, or a tree with those files, leaves the snapshot as it is. */
    method Reload(r: Root, bad: bool) returns (ok: bool)
      requires Valid()
      modifies this`cur, this`gen, this`origin
      ensures Valid()
      ensures ok <==> !bad && At(r).Some? && (Builds(At(r).value) || BuiltFrom(old(origin), r, At(r).value))
      ensures ok ==> BuiltFrom(origin, r, At(r).value)
      ensures ok && !BuiltFrom(old(origin), r, At(r).value) ==>
                origin == Some(Origin(r, At(r).value)) && cur.Some? && cur.value.gen == gen && gen == old(gen) + 1
      ensures !ok || BuiltFrom(old(origin), r, At(r).value) ==> cur == old(cur) && origin == old(origin) && gen == old(gen)
    {
      var files := At(r);
      if bad || files.None? {
        return false;
      }
      var mark := fingerprint(r, Listed(files.value));
      if cur.Some? && cur.value.print_ == mark {
        assert Asked(origin.value.files, cur.value.snap);
        return true;
      }
      var tree := read(files.value);
      if tree.None? {
        return false;
      }
      var snap := Compile(tree.value);
      if snap.None? {
        return false;
      }
      assert Asked(files.value, snap.value);
      gen := gen + 1;
      cur := Some(Loaded(mark, snap.value, gen));
      origin := Some(Origin(r, files.value));
      return true;
    }

    /** `ReloadFrom`. */
    method ReloadFrom(r: Root, bad: bool) returns (ok: bool)
      requires Valid()
      modifies this`cur, this`gen, this`origin, this`root
      ensures Valid()
      ensures ok <==> !bad && At(r).Some? && (Builds(At(r).value) || BuiltFrom(old(origin), r, At(r).value))
      ensures ok ==> BuiltFrom(origin, r, At(r).value) && root == r
      ensures !ok ==> root == old(root)
      ensures ok && !BuiltFrom(old(origin), r, At(r).value) ==>
                origin == Some(Origin(r, At(r).value)) && cur.Some? && cur.value.gen == gen && gen == old(gen) + 1
      ensures !ok || BuiltFrom(old(origin), r, At(r).value) ==> cur == old(cur) && origin == old(origin) && gen == old(gen)
    {
      ok := Reload(r, bad);
      if ok {
        root := r;
      }
    }

    /** The second half of `Apply`: the staged tree takes the place of the live one. */
    method Swap(f: Faults) returns (ok: bool)
      requires Valid() && next.Some?
      modifies this
      ensures Valid()
      ensures ok <==> Parks(old(live), old(prev), f) && !f.promote && !f.reload &&
                      (Builds(old(next).value) || BuiltFrom(old(origin), Data, old(next).value))
      ensures ok ==> live == old(next) && BuiltFrom(origin, Data, live.value) && root == Data
      ensures ok && !BuiltFrom(old(origin), Data, live.value) ==> origin == Some(Origin(Data, live.value))
      ensures ok ==> next.None? && (f.dropPrev.None? ==> prev.None?)
      ensures !ok && f.dropNext.None? ==> next.None?
      ensures !ok && old(Aligned()) ==> cur == old(cur) && origin == old(origin)
      ensures !ok && Undoes(f) ==> live == old(live)
      ensures old(Aligned()) && f.clearLive.None? ==> Aligned()
    {
      prev := Removed(prev, f.clearPrev);
      var lived := true;
      if Renames(live, prev, f.park) {
        live, prev := None, live;
      } else {
        if f.park || live.Some? {
          next := Removed(next, f.dropNext);
          return false;
        }
        lived := false;
      }
      ok := Promote(lived, f);
    }

    /** With the live tree parked, the staged one is promoted and loaded, or the parked one comes back. */
    method Promote(lived: bool, f: Faults) returns (ok: bool)
      requires Valid() && next.Some? && live.None? && (lived ==> prev.Some?)
      modifies this
      ensures Valid()
      ensures ok <==> !f.promote && !f.reload && (Builds(old(next).value) || BuiltFrom(old(origin), Data, old(next).value))
      ensures ok ==> live == old(next) && BuiltFrom(origin, Data, live.value) && root == Data
      ensures ok && !BuiltFrom(old(origin), Data, live.value) ==> origin == Some(Origin(Data, live.value))
      ensures ok ==> next.None? && (f.dropPrev.None? ==> prev.None?)
      ensures !ok && f.dropNext.None? ==> next.None?
      ensures !ok && (lived ==> BuiltFrom(old(origin), Data, old(prev).value)) ==> cur == old(cur) && origin == old(origin)
      ensures !ok && Undoes(f) ==> live == if lived then old(prev) else None
      ensures (lived ==> BuiltFrom(old(origin), Data, old(prev).value)) && f.clearLive.None? ==> Aligned()
    {
      if Renames(next, live, f.promote) {
        next, live := None, next;
      } else {
        if lived && Renames(prev, live, f.undo) {
          prev, live := None, prev;
        }
        next := Removed(next, f.dropNext);
        return false;
      }
      ok := ReloadFrom(Data, f.reload);
      if !ok {
        Withdraw(lived, f);
        return false;
      }
      prev := Removed(prev, f.dropPrev);
    }

    /** The live tree is taken away, and the parked one put back and loaded. */
    method Withdraw(lived: bool, f: Faults)
      requires Valid() && live.Some? && (lived ==> prev.Some?)
      modifies this
      ensures Valid()
      ensures next == old(next)
      ensures (lived ==> BuiltFrom(old(origin), Data, old(prev).value)) ==> cur == old(cur) && origin == old(origin)
      ensures f.clearLive.None? ==> live == if lived && !f.restore then old(prev) else None
    {
      live := Removed(live, f.clearLive);
      if lived && Renames(prev, live, f.restore) {
        prev, live := None, prev;
        var _ := ReloadFrom(Data, f.again);
      }
    }

    /** Nothing stands in the way of a swap that stages `t`. */
    ghost predicate Succeeds(p: Pack, blobs: Blobs, f: Faults, t: Files)
      reads this
    {
      && !f.mkdir && Writes(p, blobs, f.broken) && Parks(live, prev, f) && !f.promote && !f.reload
      && (Builds(t) || BuiltFrom(origin, Data, t))
    }

    /** `Apply`: on success the pack's tree is live and loaded, laid over whatever could not be cleared from the
        staging directory, and nothing is left staged or parked that can be removed. On failure a snapshot that
        was built from the live tree stays, and the live tree is the old one when the undo steps work. It says
        exactly when it succeeds, and exactly when what goes live is the pack and nothing else. */
    method Apply(p: Pack, blobs: Blobs, at: nat, f: Faults) returns (ok: bool)
      requires Valid()
      modifies this
      ensures Valid()
      ensures forall t :: LaidOver(Inside(Removed(old(next), f.clearNext)), p, blobs, at, t) ==>
                (ok <==> old(Succeeds(p, blobs, f, t)))
      ensures ok ==> live.Some? && LaidOver(Inside(Removed(old(next), f.clearNext)), p, blobs, at, live.value)
      ensures ok ==> (TreeOfPack(p, blobs, at, live.value) <==>
                      Replaced(Inside(Removed(old(next), f.clearNext)), p, blobs, at))
      ensures ok ==> Writes(p, blobs, f.broken) && BuiltFrom(origin, Data, live.value) && root == Data
      ensures ok && !BuiltFrom(old(origin), Data, live.value) ==> origin == Some(Origin(Data, live.value))
      ensures ok ==> next.None? && (f.dropPrev.None? ==> prev.None?)
      ensures !ok && !f.mkdir && f.dropNext.None? ==> next.None?
      ensures !ok && old(Aligned()) ==> cur == old(cur) && origin == old(origin)
      ensures !ok && Undoes(f) ==> live == old(live)
      ensures old(Aligned()) && f.clearLive.None? ==> Aligned()
    {
      if f.mkdir {
        return false;
      }
      next := Removed(next, f.clearNext);
      ghost var left := Inside(next);
      var staged, written := Stage(Inside(next), p, blobs, at, f.broken);
      next := Some(staged);
      if !written {
        next := Removed(next, f.dropNext);
        return false;
      }
      CleanIff(left, p, blobs, at, staged);
      forall t | LaidOver(left, p, blobs, at, t) ensures t == staged {
        OneTree(left, p, blobs, at, t, staged);
      }
      ok := Swap(f);
    }
  }

  // ---- a leftover goes live ----

  const OLD := ListFile("old")
  const DEFAULT_FILE := ProfileFile("default")

  /** A pack with the default profile and no lists. */
  const PLAIN := Pack("sha256:0", 1, map[], map[], map[], "", "", map["default" := "rules: []"])

  /** What the staging directory was left with. */
  const LEFT: Files := map[Dir("lists") := Folder, OLD := File("", 0)]

  function TreeWith(lists: map<Name, seq<Netip.Prefix>>): Tree {
    Tree(lists, map[], map[], map[], map[DEFAULT_NAME := Profile([], Allow, "", [])], [])
  }

  lemma TreeWithLoads(lists: map<Name, seq<Netip.Prefix>>)
    requires forall u :: u in lists ==> Netset.AllValid(lists[u])
    ensures TreeReadable(TreeWith(lists)) && Loads(TreeWith(lists))
  {
    assert ProfileOk(TreeWith(lists).profiles[DEFAULT_NAME]);
  }

  /** A reader that finds the old list where its file is, and asks for the default profile's file. */
  function PlainReader(f: Files): Option<ReadyTree> {
    TreeWithLoads(map[]);
    TreeWithLoads(map[Name("old") := []]);
    if DEFAULT_FILE !in f then None
    else if OLD in f then Some(TreeWith(map[Name("old") := []]))
    else Some(TreeWith(map[]))
  }

  /** A list that could not be cleared from the staging directory goes live with a pack that does not have it, and
      is loaded. */
  method LeftoverGoesLive(fingerprint: (Root, Listing) -> string) returns (node: Node, ok: bool)
    requires Telling(fingerprint)
    ensures ok && OLD.id !in PLAIN.lists
    ensures node.live.Some? && OLD in node.live.value && !TreeOfPack(PLAIN, map[], 0, node.live.value)
    ensures node.cur.Some? && Name("old") in node.cur.value.snap.lists
  {
    node := new Node(PlainReader, fingerprint, None, None, Some(LEFT), None);
    var f := CALM.(clearNext := Some(LEFT.Keys));
    assert Inside(Removed(node.next, f.clearNext)) == LEFT;
    var t, written := Stage(LEFT, PLAIN, map[], 0, {});
    assert node.Succeeds(PLAIN, map[], f, t) by { LeftoverStays(t); }
    ok := node.Apply(PLAIN, map[], 0, f);
    LeftoverStays(node.live.value);
    assert Name("old") in node.cur.value.snap.lists by {
      assert Asked(node.origin.value.files, node.cur.value.snap);
      LeftoverLoaded(node.cur.value.snap);
    }
  }

  lemma LeftoverLoaded(s: Snapshot)
    ensures SnapshotOf(TreeWith(map[Name("old") := []]), s) ==> Name("old") in s.lists
  {
  }

  lemma LeftoverStays(t: Files)
    requires LaidOver(LEFT, PLAIN, map[], 0, t)
    ensures OLD in t && DEFAULT_FILE in t && !TreeOfPack(PLAIN, map[], 0, t)
    ensures PlainReader(t) == Some(TreeWith(map[Name("old") := []])) && Loads(TreeWith(map[Name("old") := []]))
  {
    TreeWithLoads(map[Name("old") := []]);
    assert Wanted(PLAIN, map[], 0, OLD).None? && Wanted(PLAIN, map[], 0, DEFAULT_FILE).Some?;
    assert Look(t, OLD) == Look(LEFT, OLD);
    assert Look(t, DEFAULT_FILE) == Wanted(PLAIN, map[], 0, DEFAULT_FILE);
  }
}
