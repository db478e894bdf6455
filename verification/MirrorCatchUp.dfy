/** How a catch-up moves a set, and why what a keeper prints is what the safety theorem asks for. */
module MirrorCatchUp {
  import opened Bits
  import opened Netip
  import opened Composition
  import opened Wafs
  import opened Mirror
  import opened MirrorSafety

  // ---- catching up ----

  /** The packages after `lo` up to `hi`, applied once each in order. */
  ghost function InOrder(c: Codec, nets: Nets, env: Env, epoch: u64, lo: int, hi: int): Option<Nets>
    requires 0 <= lo <= hi < TWO64
    decreases hi - lo
  {
    if lo == hi then Some(nets)
    else if lo + 1 !in env.packages then None
    else
      var p := PackageFor(c, env.packages[lo + 1], epoch, lo + 1);
      if p.None? || !Runs(p.value) then None
      else InOrder(c, Replay(nets, Records(p.value)), env, epoch, lo + 1, hi)
  }

  /** The set has moved from `h` to `h'` over consecutive packages, each applied exactly once, and not
      beyond `upto`. */
  ghost predicate Moved(c: Codec, env: Env, h: Held, h': Held, upto: u64)
  {
    && h.sn <= h'.sn <= upto
    && h' == h.(sn := h'.sn, nets := h'.nets)
    && InOrder(c, h.nets, env, h.epoch, h.sn, h'.sn) == Some(h'.nets)
  }

  /** One applied package and what moves on from it. */
  lemma MovedOnce(c: Codec, env: Env, h: Held, o: Object, h': Held, upto: u64)
    requires Wf(h) && h.sn + 1 < TWO64 && h.sn + 1 in env.packages
    requires PackageFor(c, env.packages[h.sn + 1], h.epoch, h.sn + 1) == Some(o) && Runs(o)
    requires Moved(c, env, Advance(h, o), h', upto)
    ensures Moved(c, env, h, h', upto)
  {
  }

  lemma MovedNowhere(c: Codec, env: Env, h: Held, upto: u64)
    requires h.sn <= upto
    ensures Moved(c, env, h, h, upto)
  {
  }

  /** A snapshot was asked for and installed. */
  ghost predicate Installed(c: Codec, env: Env, r: Run, r': Run)
  {
    Brought(c, env).Some? && Runs(Brought(c, env).value) && r'.held == Install(c, Brought(c, env).value) && r'.asked == r.asked + 1
  }

  lemma VerifyMoves(c: Codec, r: Run, want: string, env: Env)
    requires Wf(r.held)
    ensures var v := Verify(c, r, want, env);
            (!v.0 && Installed(c, env, r, v.1)) || v.1.held == r.held
  {
  }

  /** A package turn installs a snapshot, stops or ends with the set as it was, or applies the next package. */
  lemma PackageMoves(c: Codec, r: Run, left: nat, env: Env)
    requires Wf(r.held) && left > 0 && r.held.sn + 1 < TWO64
    ensures var t := NextPackage(c, r, left, env);
            var o := NextObject(c, r.held, env);
            || (t.Stop? && Installed(c, env, r, t.run))
            || (t.Stop? && t.run.held == r.held)
            || (o.Some? && Runs(o.value) && t.run.held == Advance(r.held, o.value) && (t.Go? ==> t.run == Advanced(r, o.value)))
  {
    NextPackageIs(c, r, left, env);
    var o := NextObject(c, r.held, env);
    if o.Some? && Runs(o.value) { VerifyMoves(c, Advanced(r, o.value), c.show(o.value.head.hash), env); }
  }

  /** A catch-up of any set, its last snapshot good or bad, over any objects: the set ends with the snapshot that
      was brought, or it has applied a run of consecutive packages, once each, and not beyond the frame. */
  lemma {:induction false} WalkIsInOrder(c: Codec, r: Run, left: nat, upto: u64, hash: string, env: Env)
    requires Wf(r.held) && Fitting(r.held.sn, left, upto) && r.held.sn <= upto
    ensures var r' := Walk(c, r, left, upto, hash, env);
            Installed(c, env, r, r') || Moved(c, env, r.held, r'.held, upto)
    decreases Measure(r.held.sn, left, upto)
  {
    var t := TakeTurn(c, r, left, upto, hash, env);
    MovedNowhere(c, env, r.held, upto);
    if left == 0 {
      VerifyMoves(c, r, hash, env);
      if t.Go? { WalkIsInOrder(c, t.run, t.left, upto, hash, env); }
    } else {
      PackageMoves(c, r, left, env);
      if t.Go? { WalkIsInOrder(c, t.run, t.left, upto, hash, env); }
      var r' := Walk(c, r, left, upto, hash, env);
      var o := NextObject(c, r.held, env);
      if o.Some? && Runs(o.value) && t.run.held == Advance(r.held, o.value) {
        MovedNowhere(c, env, t.run.held, upto);
        if Moved(c, env, t.run.held, r'.held, upto) { MovedOnce(c, env, r.held, o.value, r'.held, upto); }
      }
    }
  }

  /** Every package after `from` up to `upto` is there, for the right epoch. */
  ghost predicate AllThere(c: Codec, env: Env, epoch: u64, from: int, upto: int)
  {
    forall n :: from < n <= upto ==>
      n in env.packages && 0 <= n < TWO64 && PackageFor(c, env.packages[n], epoch, n).Some?
  }

  /** A set at another place of its epoch, with what the keeper held there. */
  function Placed(k: Keeper, r: Run, n: u64): Run
    requires Knows(k, r.held.epoch, n)
  {
    r.(held := r.held.(sn := n, nets := After(k[r.held.epoch], n)))
  }

  /** A catch-up arrives: with the store answering and every package present and genuine, the set comes to the frame's place
      with the keeper's composition, asks for nothing on the way, and there the frame's digest is verified. */
  lemma {:induction false} WalkArrives(c: Codec, k: Keeper, r: Run, left: nat, upto: u64, hash: string, env: Env)
    requires Wf(r.held) && r.held.ready && Fitting(r.held.sn, left, upto)
    requires GenuineEnv(c, k, env) && Faithful(c, k, r.held) && r.held.sn <= upto
    requires env.failing == {} && AllThere(c, env, r.held.epoch, r.held.sn, upto)
    requires Knows(k, r.held.epoch, upto)
    ensures Wf(Placed(k, r, upto).held) && Walk(c, r, left, upto, hash, env) == Verify(c, Placed(k, r, upto), hash, env).1
    decreases Measure(r.held.sn, left, upto)
  {
    var t := TakeTurn(c, r, left, upto, hash, env);
    TurnAdvances(c, k, r, left, upto, hash, env);
    if t.Go? {
      TurnFaithful(c, k, r, left, upto, hash, env);
      WalkArrives(c, k, t.run, t.left, upto, hash, env);
      assert Placed(k, t.run, upto) == Placed(k, r, upto);
    } else {
      assert Placed(k, r, upto) == r;
    }
  }

  /** The digest a frame names is the keeper's, or none. */
  ghost predicate Expected(c: Codec, k: Keeper, epoch: int, n: nat, hash: string)
    requires Knows(k, epoch, n)
  {
    hash == "" || exists x: u64 :: RightHash(c, k, epoch, n, x) && hash == c.show(x)
  }

  /** Catch-up completes: where the frame names the keeper's digest the set ends there, and asks for no snapshot at all. */
  lemma WalkCompletes(c: Codec, k: Keeper, r: Run, left: nat, upto: u64, hash: string, env: Env)
    requires Wf(r.held) && r.held.ready && Fitting(r.held.sn, left, upto)
    requires GenuineEnv(c, k, env) && Faithful(c, k, r.held) && r.held.sn <= upto
    requires env.failing == {} && AllThere(c, env, r.held.epoch, r.held.sn, upto)
    requires Knows(k, r.held.epoch, upto) && Expected(c, k, r.held.epoch, upto, hash)
    ensures Walk(c, r, left, upto, hash, env) ==
            r.(held := r.held.(sn := upto, nets := After(k[r.held.epoch], upto)))
  {
    WalkArrives(c, k, r, left, upto, hash, env);
  }

  lemma TurnAdvances(c: Codec, k: Keeper, r: Run, left: nat, upto: u64, hash: string, env: Env)
    requires Wf(r.held) && r.held.ready && Fitting(r.held.sn, left, upto)
    requires GenuineEnv(c, k, env) && Faithful(c, k, r.held) && r.held.sn <= upto
    requires env.failing == {} && AllThere(c, env, r.held.epoch, r.held.sn, upto)
    requires Knows(k, r.held.epoch, upto)
    ensures var t := TakeTurn(c, r, left, upto, hash, env);
            if t.Stop? then t.run == Verify(c, r, hash, env).1 && r.held.sn == upto
            else t.run == r || (r.held.sn < upto &&
                   t.run == r.(held := r.held.(sn := r.held.sn + 1, nets := After(k[r.held.epoch], r.held.sn + 1))))
  {
    if left > 0 {
      PackageAdvances(c, k, r, left, env);
    }
  }

  /** A genuine package that is there is applied and accepted. */
  lemma PackageAdvances(c: Codec, k: Keeper, r: Run, left: nat, env: Env)
    requires Wf(r.held) && r.held.ready && left > 0 && r.held.sn + 1 < TWO64
    requires GenuineEnv(c, k, env) && Faithful(c, k, r.held) && NextObject(c, r.held, env).Some?
    ensures Knows(k, r.held.epoch, r.held.sn + 1)
    ensures NextPackage(c, r, left, env) ==
            Go(r.(held := r.held.(sn := r.held.sn + 1, nets := After(k[r.held.epoch], r.held.sn + 1))), left - 1)
  {
    NextPackageIs(c, r, left, env);
    AdvanceFaithful(c, k, r.held, env.packages[r.held.sn + 1]);
  }

  // ---- what a keeper prints is genuine ----

  /** The records list a map: adds only, every prefix once. */
  predicate Lists(recs: seq<Record>, nets: Nets) {
    && (forall i :: 0 <= i < |recs| ==> recs[i].op == OP_ADD && recs[i].prefix in nets && nets[recs[i].prefix] == recs[i].exp)
    && (forall p :: p in nets ==> exists i :: 0 <= i < |recs| && recs[i].prefix == p)
  }

  lemma {:induction false} ReplayAdds(recs: seq<Record>, nets: Nets)
    requires forall i :: 0 <= i < |recs| ==> recs[i].op == OP_ADD && recs[i].prefix in nets && nets[recs[i].prefix] == recs[i].exp
    ensures forall p :: p in Replay(map[], recs) <==> exists i :: 0 <= i < |recs| && recs[i].prefix == p
    ensures forall p :: p in Replay(map[], recs) ==> p in nets && Replay(map[], recs)[p] == nets[p]
  {
    if recs != [] {
      var n := |recs| - 1;
      ReplayAdds(recs[..n], nets);
      forall p ensures p in Replay(map[], recs) <==> exists i :: 0 <= i < |recs| && recs[i].prefix == p {
        if p in Replay(map[], recs[..n]) {
          var i :| 0 <= i < n && recs[..n][i].prefix == p;
          assert recs[i].prefix == p;
        }
        if i :| 0 <= i < |recs| && recs[i].prefix == p && i < n {
          assert recs[..n][i].prefix == p;
        }
      }
    }
  }

  /** A listing rebuilds the map it lists. */
  lemma ListingReplays(recs: seq<Record>, nets: Nets)
    requires Lists(recs, nets)
    ensures Replay(map[], recs) == nets
  {
    ReplayAdds(recs, nets);
  }

  /** What the keeper prints for `(epoch, n)`: the change that led there, or a listing of what it held. */
  ghost predicate Printed(c: Codec, k: Keeper, o: Object) {
    && Fits(o) && o.head.typ == TYPE_CIDR
    && var e, n := o.head.epoch, o.head.sn;
       && Knows(k, e, n) && RightHash(c, k, e, n, o.head.hash)
       && if o.head.kind == KIND_SNAPSHOT then
            o.head.key == k[e].key && Lists(Records(o), After(k[e], n))
          else
            o.head.kind == KIND_PACKAGE && n > 0 && Records(o) == k[e].changes[n - 1]
  }

  /** Bytes that come from the keeper: a printed object, whole with anything after it, or cut short. */
  ghost predicate Published(c: Codec, k: Keeper, data: Bytes) {
    exists o :: Printed(c, k, o) && (Print(o) <= data || data <= Print(o))
  }

  /** The codec the program runs with: any hash, the WAFS reader, and sixteen hexadecimal digits. */
  ghost function WafsCodec(d: Digest): Codec {
    Codec(d, (data: Bytes) => Decoded(data), (n: u64) => HexOf(n))
  }

  /** A printed digest passes exactly when it is the set's own. */
  lemma VerifyComparesHashes(d: Digest, r: Run, want: u64, env: Env)
    requires Wf(r.held)
    ensures Verify(WafsCodec(d), r, HexOf(want), env).0 <==> HashOf(WafsCodec(d), r.held) == want
  {
    HexOfInjective(want, HashOf(WafsCodec(d), r.held));
    HexOfInjective(HashOf(WafsCodec(d), r.held), want);
  }

  /** Everything a keeper publishes is genuine, so the safety theorem applies to a mirror that reads
      printed bytes. */
  lemma PublishedIsGenuine(d: Digest, k: Keeper, data: Bytes)
    requires SoundKeeper(k) && Published(WafsCodec(d), k, data)
    ensures Genuine(WafsCodec(d), k, data)
  {
    var c := WafsCodec(d);
    var o :| Printed(c, k, o) && (Print(o) <= data || data <= Print(o));
    if Print(o) <= data {
      DecodedIs(data, o);
      PrintedIsGenuine(c, k, o);
    } else {
      assert data == Print(o)[..|data|] && |data| < |Print(o)|;
      CutIsRejected(o, |data|);
    }
  }

  lemma PrintedIsGenuine(c: Codec, k: Keeper, o: Object)
    requires SoundKeeper(k) && Printed(c, k, o)
    ensures GenuineObject(c, k, o)
  {
    var e, n := o.head.epoch, o.head.sn;
    var recs := Records(o);
    AfterValid(k, e, n);
    if o.head.kind == KIND_SNAPSHOT {
      ListingReplays(recs, After(k[e], n));
      forall i | 0 <= i < |recs| ensures ValidPrefix(recs[i].prefix) {
        assert recs[i].prefix in After(k[e], n);
      }
    }
  }
}
