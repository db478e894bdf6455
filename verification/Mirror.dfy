/** The live-set mirror of internal/dyn/dyn.go as a step function over what a set holds, and what every
    run of it keeps. One step is one received frame together with everything the network and the
    object store answer while it is handled, all of it chosen by the environment. */
module Mirror {
  import opened Bits
  import opened Netip
  import opened Composition
  import opened Wafs

  const VERSION := 3
  const PACKAGES_PER_READ := 256

  datatype Op = Resync | Diff | Tick | OtherOp

  /** The body of a package carried inside a frame. */
  datatype Inline = Absent | NotBase64 | Carried(data: Bytes)

  /** A frame: `epoch` is absent when the field is not hexadecimal. */
  datatype Frame = Frame(v: int, epoch: Option<u64>, sn: u64, op: Op, hash: string, carried: Inline)

  datatype Fetch = Failed | Gone | Fetched(data: Bytes)

  /** The keeper's answer to a snapshot request. */
  datatype Reply = NoReply | Refused | Reference(fetch: Fetch)

  /** What one handled frame can see outside: whether there is an object store, the batches whose read
      fails (by the sequence number they start after), the packages present by sequence number, and
      the answer to a snapshot request. */
  datatype Env = Env(blobs: bool, failing: set<int>, packages: map<int, Bytes>, reply: Reply)

  /** What a set holds. */
  datatype Held = Held(ready: bool, epoch: u64, sn: u64, key: Bytes, nets: Nets, snapBad: bool)

  /** A set with the number of snapshot requests sent, snapshots installed with a wrong hash, and
      frames handled that named another epoch; and whether an added prefix without a counter has ended
      the program, after which nothing changes. */
  datatype Run = Run(held: Held, asked: nat, spoiled: nat, turns: nat, over: bool)

  const FRESH := Run(Held(false, 0, 0, [], map[], false), 0, 0, 0, false)

  // ---- hexadecimal digests ----

  function HexDigit(n: nat): char
    requires n < 16
  {
    "0123456789abcdef"[n]
  }

  function Hex(n: nat, k: nat): string {
    if k == 0 then "" else Hex(n / 16, k - 1) + [HexDigit(n % 16)]
  }

  function HexOf(n: u64): string {
    Hex(n, 16)
  }

  lemma {:induction false} HexInjective(a: nat, b: nat, k: nat)
    requires a < Pow2(4 * k) && b < Pow2(4 * k) && Hex(a, k) == Hex(b, k)
    ensures a == b
  {
    if k > 0 {
      Pow2Add(4 * (k - 1), 4);
      HexLength(a / 16, k - 1);
      HexLength(b / 16, k - 1);
      SameEnds(Hex(a / 16, k - 1), HexDigit(a % 16), Hex(b / 16, k - 1), HexDigit(b % 16));
      SameDigit(a % 16, b % 16);
      HexInjective(a / 16, b / 16, k - 1);
    }
  }

  lemma SameEnds(x: string, c: char, y: string, d: char)
    requires |x| == |y| && x + [c] == y + [d]
    ensures x == y && c == d
  {
    assert (x + [c])[..|x|] == x && (y + [d])[..|y|] == y;
    assert (x + [c])[|x|] == c && (y + [d])[|y|] == d;
  }

  lemma SameDigit(a: nat, b: nat)
    requires a < 16 && b < 16 && HexDigit(a) == HexDigit(b)
    ensures a == b
  {
  }

  lemma {:induction false} HexLength(n: nat, k: nat)
    ensures |Hex(n, k)| == k
  {
    if k > 0 {
      HexLength(n / 16, k - 1);
    }
  }

  /** Comparing printed digests compares digests. */
  lemma HexOfInjective(a: u64, b: u64)
    ensures HexOf(a) == HexOf(b) <==> a == b
    ensures HexOf(a) != ""
  {
    Pow2Widths();
    HexLength(a, 16);
    if HexOf(a) == HexOf(b) {
      HexInjective(a, b, 16);
    }
  }

  /** The set's hash, the reading of objects and the printing of digests, which no step looks inside. */
  datatype Codec = Codec(digest: Digest, decode: Bytes -> Option<Whole>, show: u64 -> string)

  /** A CIDR object. */
  predicate Cidrs(o: Object) {
    Fits(o) && o.head.typ == TYPE_CIDR
  }

  /** A CIDR object whose records run to their end on every set; any other ends the program. */
  predicate Runs(o: Object) {
    Cidrs(o) && Applicable(Records(o))
  }

  /** An object runs if and only if every record that adds has a length its family has. */
  lemma RunsIff(o: Object)
    requires Cidrs(o)
    ensures Runs(o) <==> forall i :: 0 <= i < |o.raws| && o.raws[i].op == OP_ADD ==> LengthFits(o.raws[i])
  {
    ObjectRunsIff(o, map[]);
    RunsToEnd(map[], Records(o));
  }

  predicate Wf(h: Held) {
    ValidNets(h.nets) && (h.snapBad ==> h.ready)
  }

  ghost function HashOf(c: Codec, h: Held): u64
    requires ValidNets(h.nets)
  {
    Fold(c.digest, h.key, h.nets.Keys)
  }

  // ---- the steps ----

  /** The object a snapshot request brings, where it can be installed. */
  ghost function Brought(c: Codec, env: Env): (r: Option<Object>)
    ensures r.Some? ==> Cidrs(r.value)
  {
    if env.reply.Reference? && env.blobs && env.reply.fetch.Fetched? then
      match c.decode(env.reply.fetch.data)
      case None => None
      case Some(o) => if o.head.kind == KIND_SNAPSHOT && o.head.typ == TYPE_CIDR then Some(o) else None
    else None
  }

  ghost function Install(c: Codec, o: Object): (h: Held)
    requires Runs(o)
    ensures Wf(h)
  {
    ReplayKeepsValid(map[], Records(o));
    var nets := Replay(map[], Records(o));
    Held(true, o.head.epoch, o.head.sn, o.head.key, nets, Fold(c.digest, o.head.key, nets.Keys) != o.head.hash)
  }

  /** `snapshot`. */
  ghost function Snapshot(c: Codec, r: Run, env: Env): (r': Run)
    requires Wf(r.held)
    ensures Wf(r'.held)
  {
    if r.held.snapBad then r
    else
      var asked := r.(asked := r.asked + 1);
      match Brought(c, env)
      case None => asked
      case Some(o) =>
        if !Runs(o) then asked.(over := true)
        else
          var h := Install(c, o);
          asked.(held := h, spoiled := r.spoiled + (if h.snapBad then 1 else 0))
  }

  /** `verify`: the digest matches, or the set is resynchronised unless its last snapshot was bad. */
  ghost function Verify(c: Codec, r: Run, want: string, env: Env): (res: (bool, Run))
    requires Wf(r.held)
    ensures Wf(res.1.held) && (res.0 ==> res.1 == r)
  {
    if want == "" || c.show(HashOf(c, r.held)) == want then (true, r)
    else if r.held.snapBad then (false, r)
    else (false, Snapshot(c, r, env))
  }

  /** The package some bytes hold for a set at `(epoch, want)`. */
  ghost function PackageFor(c: Codec, data: Bytes, epoch: u64, want: u64): (r: Option<Object>)
    ensures r.Some? ==> Cidrs(r.value)
    ensures r.Some? ==> r.value.head.sn == want && r.value.head.epoch == epoch
  {
    match c.decode(data)
    case None => None
    case Some(o) =>
      if o.head.kind != KIND_PACKAGE || o.head.epoch != epoch || o.head.sn != want || o.head.typ != TYPE_CIDR
      then None else Some(o)
  }

  ghost function Advance(h: Held, o: Object): (h': Held)
    requires Wf(h) && Runs(o)
    ensures Wf(h')
  {
    ReplayKeepsValid(h.nets, Records(o));
    h.(nets := Replay(h.nets, Records(o)), sn := o.head.sn)
  }

  ghost function Advanced(r: Run, o: Object): (r': Run)
    requires Wf(r.held) && Runs(o)
    ensures Wf(r'.held)
  {
    r.(held := Advance(r.held, o))
  }

  /** `applyPackage`. */
  ghost function ApplyPackage(c: Codec, r: Run, data: Bytes, want: u64, env: Env): (res: (bool, Run))
    requires Wf(r.held)
    ensures Wf(res.1.held)
    ensures res.0 ==> res.1.held.sn == want
  {
    match PackageFor(c, data, r.held.epoch, want)
    case None => (false, Snapshot(c, r, env))
    case Some(o) =>
      if !Runs(o) then (false, r.(over := true))
      else Verify(c, Advanced(r, o), c.show(o.head.hash), env)
  }

  function Min(a: int, b: int): int {
    if a < b then a else b
  }

  /** One turn of `catchUp`'s loops: it ends the catch-up, or goes on with `left` packages of the batch
      being read still to be applied. */
  datatype Turn = Stop(run: Run) | Go(run: Run, left: nat)

  predicate Fitting(sn: u64, left: nat, upto: u64) {
    left > 0 ==> sn + left <= upto
  }

  /** What is left to do, counting the read of a batch. */
  function Measure(sn: u64, left: nat, upto: u64): nat {
    2 * (if sn <= upto then upto - sn else 0) + (if left == 0 then 1 else 0)
  }

  /** A batch is used up: the catch-up is over, its next read fails, or the next batch is read. */
  ghost function NextBatch(c: Codec, r: Run, upto: u64, hash: string, env: Env): (t: Turn)
    requires Wf(r.held)
    ensures Wf(t.run.held)
    ensures t.Go? ==> t.run == r && r.held.sn < upto && 0 < t.left <= upto - r.held.sn
  {
    var sn := r.held.sn;
    if sn >= upto then Stop(Verify(c, r, hash, env).1)
    else if sn in env.failing then Stop(r)
    else Go(r, Min(upto - sn, PACKAGES_PER_READ))
  }

  /** The next package of a batch. */
  ghost function NextPackage(c: Codec, r: Run, left: nat, env: Env): (t: Turn)
    requires Wf(r.held) && left > 0 && r.held.sn + 1 < TWO64
    ensures Wf(t.run.held)
    ensures t.Go? ==> t.run.held.sn == r.held.sn + 1 && t.left == left - 1
  {
    var want := r.held.sn + 1;
    if want !in env.packages then Stop(Snapshot(c, r, env))
    else
      var (ok, r') := ApplyPackage(c, r, env.packages[want], want, env);
      if ok then Go(r', left - 1) else Stop(r')
  }

  /** The package that comes next for a set, where it is there and fits. */
  ghost function NextObject(c: Codec, h: Held, env: Env): (o: Option<Object>)
    requires h.sn + 1 < TWO64
    ensures o.Some? ==> Cidrs(o.value)
    ensures o.Some? ==> o.value.head.sn == h.sn + 1 && o.value.head.epoch == h.epoch
  {
    if h.sn + 1 in env.packages then PackageFor(c, env.packages[h.sn + 1], h.epoch, h.sn + 1) else None
  }

  /** A package turn takes a snapshot, ends the program, or applies the next package and verifies. */
  lemma NextPackageIs(c: Codec, r: Run, left: nat, env: Env)
    requires Wf(r.held) && left > 0 && r.held.sn + 1 < TWO64
    ensures var o := NextObject(c, r.held, env);
            var t := NextPackage(c, r, left, env);
            if o.None? then t == Stop(Snapshot(c, r, env))
            else if !Runs(o.value) then t == Stop(r.(over := true))
            else
              var v := Verify(c, Advanced(r, o.value), c.show(o.value.head.hash), env);
              t == if v.0 then Go(v.1, left - 1) else Stop(v.1)
  {
  }

  ghost function TakeTurn(c: Codec, r: Run, left: nat, upto: u64, hash: string, env: Env): (t: Turn)
    requires Wf(r.held) && Fitting(r.held.sn, left, upto)
    ensures Wf(t.run.held)
    ensures t.Go? ==> Fitting(t.run.held.sn, t.left, upto) &&
                      Measure(t.run.held.sn, t.left, upto) < Measure(r.held.sn, left, upto)
  {
    if left == 0 then NextBatch(c, r, upto, hash, env) else NextPackage(c, r, left, env)
  }

  ghost function Walk(c: Codec, r: Run, left: nat, upto: u64, hash: string, env: Env): (r': Run)
    requires Wf(r.held) && Fitting(r.held.sn, left, upto)
    ensures Wf(r'.held)
    decreases Measure(r.held.sn, left, upto)
  {
    match TakeTurn(c, r, left, upto, hash, env)
    case Stop(r') => r'
    case Go(r', left') => Walk(c, r', left', upto, hash, env)
  }

  /** `catchUp`. */
  ghost function CatchUp(c: Codec, r: Run, upto: u64, hash: string, env: Env): (r': Run)
    requires Wf(r.held)
    ensures Wf(r'.held)
  {
    if !env.blobs then r else Walk(c, r, 0, upto, hash, env)
  }

  /** A frame that makes the set drop its epoch. */
  predicate Turns(h: Held, f: Frame) {
    f.v == VERSION && h.ready && !f.op.Resync? && f.epoch.Some? && f.epoch.value != h.epoch
  }

  /** `onFrame`. */
  ghost function OnFrame(c: Codec, r: Run, f: Frame, env: Env): (r': Run)
    requires Wf(r.held)
    ensures Wf(r'.held)
  {
    var h := r.held;
    if f.v != VERSION then r
    else if !h.ready then Snapshot(c, r, env)
    else if f.op.Resync? || f.epoch.None? then r
    else if f.epoch.value != h.epoch then
      Snapshot(c, r.(held := h.(snapBad := false), turns := r.turns + 1), env)
    else if f.sn < h.sn then r
    else if f.sn == h.sn then
      if f.op.Tick? || f.op.Diff? then Verify(c, r, f.hash, env).1 else r
    else if f.op.Diff? && f.carried.Carried? && f.sn == h.sn + 1 then
      ApplyPackage(c, r, f.carried.data, f.sn, env).1
    else CatchUp(c, r, f.sn, f.hash, env)
  }

  // ---- runs ----

  /** The first snapshot of a set's goroutine, or a frame it takes from its queue. */
  datatype Event = Began(env: Env) | Took(frame: Frame, env: Env)

  ghost function Next(c: Codec, r: Run, e: Event): (r': Run)
    requires Wf(r.held)
    ensures Wf(r'.held)
  {
    if r.over then r else
    match e
    case Began(env) => Snapshot(c, r, env)
    case Took(f, env) => OnFrame(c, r, f, env)
  }

  /** Every run: any frames, in any order, with any answers. */
  ghost function Exec(c: Codec, events: seq<Event>): (r: Run)
    ensures Wf(r.held)
  {
    if events == [] then FRESH
    else Next(c, Exec(c, events[..|events| - 1]), events[|events| - 1])
  }

  // ---- resynchronisation is bounded ----

  /** Bad snapshots are paid for by changes of epoch, one of them possibly still owed. */
  predicate Owed(r: Run) {
    r.spoiled <= r.turns + (if r.held.snapBad then 1 else 0)
  }

  /** A part of a step that stays within one epoch: it asks for nothing while the last snapshot is
      bad, keeps the account, and counts no turn. */
  predicate Quiet(r: Run, r': Run) {
    && r'.turns == r.turns
    && (r.held.snapBad ==> r'.asked == r.asked && r'.spoiled == r.spoiled && r'.held.snapBad)
    && (Owed(r) ==> Owed(r'))
    && r.asked <= r'.asked <= r.asked + 1
  }

  lemma SnapshotQuiet(c: Codec, r: Run, env: Env)
    requires Wf(r.held)
    ensures Quiet(r, Snapshot(c, r, env))
  {
  }

  lemma VerifyQuiet(c: Codec, r: Run, want: string, env: Env)
    requires Wf(r.held)
    ensures Quiet(r, Verify(c, r, want, env).1)
  {
    SnapshotQuiet(c, r, env);
  }

  lemma ApplyQuiet(c: Codec, r: Run, data: Bytes, want: u64, env: Env)
    requires Wf(r.held)
    ensures Quiet(r, ApplyPackage(c, r, data, want, env).1)
    ensures ApplyPackage(c, r, data, want, env).0 ==> Level(r, ApplyPackage(c, r, data, want, env).1)
  {
    match PackageFor(c, data, r.held.epoch, want)
    case None => SnapshotQuiet(c, r, env);
    case Some(o) => if Runs(o) { VerifyQuiet(c, Advanced(r, o), c.show(o.head.hash), env); }
  }

  /** No snapshot was asked for or installed between the two. */
  predicate Level(r: Run, r': Run) {
    r'.asked == r.asked && r'.spoiled == r.spoiled && r'.held.snapBad == r.held.snapBad
  }

  lemma PackageQuiet(c: Codec, r: Run, left: nat, env: Env)
    requires Wf(r.held) && left > 0 && r.held.sn + 1 < TWO64
    ensures var t := NextPackage(c, r, left, env);
            Quiet(r, t.run) &&
            (t.Go? ==> Level(r, t.run))
  {
    NextPackageIs(c, r, left, env);
    var o := NextObject(c, r.held, env);
    if o.None? {
      SnapshotQuiet(c, r, env);
    } else if Runs(o.value) {
      VerifyQuiet(c, Advanced(r, o.value), c.show(o.value.head.hash), env);
    }
  }

  lemma TurnQuiet(c: Codec, r: Run, left: nat, upto: u64, hash: string, env: Env)
    requires Wf(r.held) && Fitting(r.held.sn, left, upto)
    ensures var t := TakeTurn(c, r, left, upto, hash, env);
            Quiet(r, t.run) &&
            (t.Go? ==> Level(r, t.run))
  {
    if left == 0 {
      VerifyQuiet(c, r, hash, env);
    } else {
      PackageQuiet(c, r, left, env);
    }
  }

  lemma {:induction false} WalkQuiet(c: Codec, r: Run, left: nat, upto: u64, hash: string, env: Env)
    requires Wf(r.held) && Fitting(r.held.sn, left, upto)
    ensures Quiet(r, Walk(c, r, left, upto, hash, env))
    decreases Measure(r.held.sn, left, upto)
  {
    TurnQuiet(c, r, left, upto, hash, env);
    var t := TakeTurn(c, r, left, upto, hash, env);
    if t.Go? {
      WalkQuiet(c, t.run, t.left, upto, hash, env);
    }
  }

  /** One event, whatever it brings: no request leaves while the last snapshot is bad, unless the frame names another
      epoch; at most one request leaves in any case; the account is kept. */
  lemma EventIsBounded(c: Codec, r: Run, e: Event)
    requires Wf(r.held)
    ensures var r' := Next(c, r, e);
            && r.asked <= r'.asked <= r.asked + 1
            && (r.held.snapBad && r'.asked > r.asked ==> e.Took? && Turns(r.held, e.frame))
            && (Owed(r) ==> Owed(r'))
            && r'.turns == r.turns + (if !r.over && e.Took? && Turns(r.held, e.frame) then 1 else 0)
  {
    match e {
      case Began(env) => SnapshotQuiet(c, r, env);
      case Took(f, env) =>
        var h := r.held;
        SnapshotQuiet(c, r, env);
        VerifyQuiet(c, r, f.hash, env);
        if f.v == VERSION && h.ready && !f.op.Resync? && f.epoch.Some? {
          if f.epoch.value != h.epoch {
            SnapshotQuiet(c, r.(held := h.(snapBad := false), turns := r.turns + 1), env);
          } else if f.sn > h.sn {
            if f.op.Diff? && f.carried.Carried? && f.sn == h.sn + 1 {
              ApplyQuiet(c, r, f.carried.data, f.sn, env);
            } else if env.blobs {
              WalkQuiet(c, r, 0, f.sn, f.hash, env);
            }
          }
        }
    }
  }

  /** In every run, whatever arrives, the installed snapshots with a wrong hash are at most one more than the frames that
      named another epoch. */
  lemma {:induction false} ResyncIsBounded(c: Codec, events: seq<Event>)
    ensures var r := Exec(c, events); Owed(r) && r.spoiled <= r.turns + 1
  {
    if events != [] {
      ResyncIsBounded(c, events[..|events| - 1]);
      EventIsBounded(c, Exec(c, events[..|events| - 1]), events[|events| - 1]);
    }
  }
}
