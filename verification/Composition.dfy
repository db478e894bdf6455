/** The live set's index in internal/dyn: a map from prefixes to expiries, a counter per family and
    length, and a hash kept up to date one record at a time. */
module Composition {
  import opened Bits
  import opened Netip

  type Bytes = seq<Byte>

  /** SipHash-2-4 of Aumasson and Bernstein stands behind this type; nothing here depends on which
      function of key and material it is. */
  type Digest = (Bytes, Bytes) -> u64

  const OP_ADD := 1

  datatype Record = Record(op: Byte, prefix: MadePrefix, exp: i64)

  type Nets = map<Prefix, i64>

  /** A record whose prefix, if it is added, has a length. */
  predicate Takes(r: Record) {
    r.op == OP_ADD ==> ValidPrefix(r.prefix)
  }

  predicate Applicable(recs: seq<Record>) {
    forall i :: 0 <= i < |recs| ==> Takes(recs[i])
  }

  function Family(p: Prefix): nat {
    if p.addr.V4? then 0 else 1
  }

  /** The bytes a prefix is hashed as. */
  function Material(p: Prefix): Bytes
    requires ValidPrefix(p)
  {
    if p.addr.V4? then [4, p.bits] + ToBE(p.addr.n, 4) else [6, p.bits] + ToBE(p.addr.n, 16)
  }

  /** Different prefixes have different material, so only the hash itself can collide. */
  lemma MaterialInjective(p: Prefix, q: Prefix)
    requires ValidPrefix(p) && ValidPrefix(q) && Material(p) == Material(q)
    ensures p == q
  {
    assert Material(p)[0] == Material(q)[0] && Material(p)[1] == Material(q)[1];
    assert Material(p)[2..] == Material(q)[2..];
    var k := if p.addr.V4? then 4 else 16;
    assert Material(p)[2..] == ToBE(p.addr.n, k);
    assert Material(q)[2..] == ToBE(q.addr.n, k);
    Pow2Widths();
    BERoundTrip(p.addr.n, k);
    BERoundTrip(q.addr.n, k);
  }

  // ---- the meaning of records ----

  /** One record on the map: an add sets the expiry, anything else removes. */
  function Step(nets: Nets, r: Record): Nets {
    if r.op == OP_ADD then nets[r.prefix := r.exp] else nets - {r.prefix}
  }

  function Replay(nets: Nets, recs: seq<Record>): Nets {
    if recs == [] then nets else Step(Replay(nets, recs[..|recs| - 1]), recs[|recs| - 1])
  }

  predicate ValidNets(nets: Nets) {
    forall p :: p in nets ==> ValidPrefix(p)
  }

  predicate MaskedNets(nets: Nets) {
    forall p :: p in nets ==> ValidPrefix(p) && IsMasked(p)
  }

  function MaskedPart(nets: Nets): (part: Nets)
    requires ValidNets(nets)
    ensures MaskedNets(part)
  {
    map p | p in nets && IsMasked(p) :: nets[p]
  }

  /** The last record of the list that names the prefix. */
  predicate NamesLast(recs: seq<Record>, p: Prefix, i: int) {
    0 <= i < |recs| && recs[i].prefix == p && forall j :: i < j < |recs| ==> recs[j].prefix != p
  }

  predicate NeverNamed(recs: seq<Record>, p: Prefix) {
    forall i :: 0 <= i < |recs| ==> recs[i].prefix != p
  }

  lemma {:induction false} NeverNamedKeeps(nets: Nets, recs: seq<Record>, p: Prefix)
    requires NeverNamed(recs, p)
    ensures (p in Replay(nets, recs) <==> p in nets) && (p in nets ==> Replay(nets, recs)[p] == nets[p])
  {
    if recs != [] { NeverNamedKeeps(nets, recs[..|recs| - 1], p); }
  }

  lemma {:induction false} LastNamedWins(nets: Nets, recs: seq<Record>, p: Prefix, i: nat)
    requires NamesLast(recs, p, i)
    ensures p in Replay(nets, recs) <==> recs[i].op == OP_ADD
    ensures recs[i].op == OP_ADD ==> Replay(nets, recs)[p] == recs[i].exp
  {
    var n := |recs| - 1;
    if i < n { LastNamedWins(nets, recs[..n], p, i); }
  }

  lemma {:induction false} SomeNamesLast(recs: seq<Record>, p: Prefix)
    ensures NeverNamed(recs, p) || exists i :: NamesLast(recs, p, i)
  {
    if recs != [] {
      var n := |recs| - 1;
      SomeNamesLast(recs[..n], p);
      if recs[n].prefix == p {
        assert NamesLast(recs, p, n);
      } else if i :| NamesLast(recs[..n], p, i) {
        assert NamesLast(recs, p, i);
      }
    }
  }

  /** The last writer wins: after a list of records a prefix is stored if and only if the last record that names it is an
      add, with that record's expiry; one that no record names is as it was before. */
  lemma LastWriterWins(nets: Nets, recs: seq<Record>, p: Prefix)
    ensures NeverNamed(recs, p) ==>
              (p in Replay(nets, recs) <==> p in nets) && (p in nets ==> Replay(nets, recs)[p] == nets[p])
    ensures forall i :: NamesLast(recs, p, i) ==>
              (p in Replay(nets, recs) <==> recs[i].op == OP_ADD) &&
              (recs[i].op == OP_ADD ==> Replay(nets, recs)[p] == recs[i].exp)
    ensures NeverNamed(recs, p) || exists i :: NamesLast(recs, p, i)
  {
    SomeNamesLast(recs, p);
    if NeverNamed(recs, p) { NeverNamedKeeps(nets, recs, p); }
    forall i | NamesLast(recs, p, i)
      ensures p in Replay(nets, recs) <==> recs[i].op == OP_ADD
      ensures recs[i].op == OP_ADD ==> Replay(nets, recs)[p] == recs[i].exp {
      LastNamedWins(nets, recs, p, i);
    }
  }

  /** Adding masked prefixes keeps a map masked, whatever is removed. */
  lemma {:induction false} ReplayKeepsMasked(nets: Nets, recs: seq<Record>)
    requires MaskedNets(nets)
    requires forall i :: 0 <= i < |recs| && recs[i].op == OP_ADD ==> ValidPrefix(recs[i].prefix) && IsMasked(recs[i].prefix)
    ensures MaskedNets(Replay(nets, recs))
  {
    if recs != [] {
      ReplayKeepsMasked(nets, recs[..|recs| - 1]);
    }
  }

  lemma {:induction false} ReplayKeepsValid(nets: Nets, recs: seq<Record>)
    requires ValidNets(nets) && Applicable(recs)
    ensures ValidNets(Replay(nets, recs))
  {
    if recs != [] {
      ReplayKeepsValid(nets, recs[..|recs| - 1]);
      assert Takes(recs[|recs| - 1]);
    }
  }

  // ---- records that cannot be counted ----

  /** The counters have a place for the prefix: lengths 0 to 128. */
  predicate Indexed(p: Prefix) {
    0 <= p.bits < 129
  }

  /** One record as `apply` runs it: it indexes a counter when it adds a new prefix or removes a stored
      one, and an index out of range ends the program, which is no map. */
  function RunOne(nets: Nets, r: Record): Option<Nets> {
    var counts := (r.op == OP_ADD) != (r.prefix in nets);
    if counts && !Indexed(r.prefix) then None else Some(Step(nets, r))
  }

  function RunAll(nets: Nets, recs: seq<Record>): Option<Nets> {
    if recs == [] then Some(nets)
    else
      var before := RunAll(nets, recs[..|recs| - 1]);
      if before.None? then None else RunOne(before.value, recs[|recs| - 1])
  }

  lemma TakesIff(nets: Nets, r: Record)
    requires ValidNets(nets)
    ensures RunOne(nets, r).Some? <==> Takes(r)
  {
  }

  lemma ReplayOneMore(nets: Nets, recs: seq<Record>, i: nat)
    requires i < |recs|
    ensures Replay(nets, recs[..i + 1]) == Step(Replay(nets, recs[..i]), recs[i])
    ensures Applicable(recs[..i + 1]) <==> Applicable(recs[..i]) && Takes(recs[i])
    ensures Applicable(recs) ==> Takes(recs[i])
  {
    var longer := recs[..i + 1];
    assert longer[..i] == recs[..i] && longer[i] == recs[i];
    assert forall j :: 0 <= j < i ==> longer[j] == recs[..i][j];
  }

  /** From any map of valid prefixes a record list runs to its end if and only if every prefix it adds has
      a length of its family; and then it gives the map that replaying it gives. */
  lemma {:induction false} RunsToEnd(nets: Nets, recs: seq<Record>)
    requires ValidNets(nets)
    ensures RunAll(nets, recs).Some? <==> Applicable(recs)
    ensures Applicable(recs) ==> RunAll(nets, recs) == Some(Replay(nets, recs))
  {
    if recs != [] {
      var n := |recs| - 1;
      RunsToEnd(nets, recs[..n]);
      assert Applicable(recs) <==> Applicable(recs[..n]) && Takes(recs[n]) by {
        assert forall i :: 0 <= i < n ==> recs[..n][i] == recs[i];
      }
      if Applicable(recs[..n]) { ReplayKeepsValid(nets, recs[..n]); }
    }
  }

  // ---- hash and counters as folds over the key set ----

  ghost function Fold(h: Digest, key: Bytes, s: set<Prefix>): u64
    requires forall p :: p in s ==> ValidPrefix(p)
  {
    if s == {} then 0
    else
      var p :| p in s;
      Xor64(h(key, Material(p)), Fold(h, key, s - {p}))
  }

  /** Any member can be taken out first. */
  lemma {:induction false} FoldRemove(h: Digest, key: Bytes, s: set<Prefix>, p: Prefix)
    requires forall q :: q in s ==> ValidPrefix(q)
    requires p in s
    ensures Fold(h, key, s) == Xor64(h(key, Material(p)), Fold(h, key, s - {p}))
    decreases |s|
  {
    var q :| q in s && Fold(h, key, s) == Xor64(h(key, Material(q)), Fold(h, key, s - {q}));
    if q != p {
      var x, y := h(key, Material(p)), h(key, Material(q));
      FoldRemove(h, key, s - {q}, p);
      FoldRemove(h, key, s - {p}, q);
      assert s - {q} - {p} == s - {p} - {q};
      var rest := Fold(h, key, s - {p} - {q});
      assert Fold(h, key, s - {q}) == Xor64(x, rest);
      assert Fold(h, key, s - {p}) == Xor64(y, rest);
      assert Fold(h, key, s) == Xor64(y, Xor64(x, rest));
      XorSwap(y, x, rest);
    }
  }

  lemma XorSwap(x: nat, y: nat, z: nat)
    ensures Xor(x, Xor(y, z)) == Xor(y, Xor(x, z))
  {
    XorAssoc(y, x, z);
    XorAssoc(x, y, z);
    XorComm(x, y);
  }

  /** Adding a prefix XORs its hash in. */
  lemma FoldAdd(h: Digest, key: Bytes, s: set<Prefix>, p: Prefix)
    requires ValidPrefix(p) && (forall q :: q in s ==> ValidPrefix(q)) && p !in s
    ensures Fold(h, key, s + {p}) == Xor64(Fold(h, key, s), h(key, Material(p)))
  {
    FoldRemove(h, key, s + {p}, p);
    assert s + {p} - {p} == s;
    XorComm(Fold(h, key, s), h(key, Material(p)));
  }

  /** Removing it XORs the same hash out. */
  lemma FoldDrop(h: Digest, key: Bytes, s: set<Prefix>, p: Prefix)
    requires (forall q :: q in s ==> ValidPrefix(q)) && p in s
    ensures Fold(h, key, s - {p}) == Xor64(Fold(h, key, s), h(key, Material(p)))
  {
    FoldAdd(h, key, s - {p}, p);
    assert s - {p} + {p} == s;
    XorCancel(Fold(h, key, s - {p}), h(key, Material(p)));
  }

  /** XOR over a listing, in the order of the listing. */
  function FoldSeq(h: Digest, key: Bytes, s: seq<Prefix>): u64
    requires forall i :: 0 <= i < |s| ==> ValidPrefix(s[i])
  {
    if s == [] then 0 else Xor64(h(key, Material(s[0])), FoldSeq(h, key, s[1..]))
  }

  /** The fold is the XOR in any order: every listing of the set without repetition gives it. */
  lemma {:induction false} FoldAnyOrder(h: Digest, key: Bytes, s: seq<Prefix>)
    requires forall i :: 0 <= i < |s| ==> ValidPrefix(s[i])
    requires forall i, j :: 0 <= i < j < |s| ==> s[i] != s[j]
    ensures FoldSeq(h, key, s) == Fold(h, key, set p | p in s)
  {
    var all := set p | p in s;
    if s != [] {
      FoldAnyOrder(h, key, s[1..]);
      assert s[0] in all;
      FoldRemove(h, key, all, s[0]);
      assert all - {s[0]} == set p | p in s[1..] by {
        forall p | p in all - {s[0]} ensures p in s[1..] {}
        forall p | p in s[1..] ensures p in all - {s[0]} {}
      }
    } else {
      assert all == {};
    }
  }

  ghost function OfLength(s: set<Prefix>, fam: nat, bits: int): set<Prefix> {
    set p | p in s && Family(p) == fam && p.bits == bits
  }

  /** `p` is stored, covers the address and has not expired. */
  predicate Live(nets: Nets, p: Prefix, a: Addr, now: i64)
    requires ValidNets(nets)
  {
    p in nets && Covers(p, a) && (nets[p] == 0 || nets[p] > now)
  }

  /** Membership by linear scan. */
  predicate Covered(nets: Nets, a: Addr, now: i64)
    requires ValidNets(nets)
  {
    exists p :: p in nets && Live(nets, p, a, now)
  }

  /** An unmasked prefix is stored and hashed but never found: 10.0.0.1/8 does not close 10.0.0.1. */
  lemma UnmaskedIsMissed()
    ensures var nets: Nets := map[Prefix(V4(0x0a00_0001), 8) := 0];
            ValidNets(nets) && Covered(nets, V4(0x0a00_0001), 0) &&
            !Covered(MaskedPart(nets), V4(0x0a00_0001), 0)
  {
    var p := Prefix(V4(0x0a00_0001), 8);
    var nets: Nets := map[p := 0];
    Pow2At24();
    assert Live(nets, p, V4(0x0a00_0001), 0);
    assert !IsMasked(p);
    assert MaskedPart(nets) == map[];
  }

  lemma Pow2At24()
    ensures Pow2(24) == 0x100_0000
  {
    Pow2At8();
    ByteWide(2);
    ByteWide(3);
  }

  // ---- the object ----

  class Index {
    var nets: Nets
    var lens: array2<int>
    var hash: u64

    /** The counters and the hash agree with the map under `key`. */
    ghost predicate Valid(h: Digest, key: Bytes)
      reads this, lens
    {
      && ValidNets(nets)
      && hash == Fold(h, key, nets.Keys)
      && Counted()
    }

    ghost predicate Counted()
      reads this, lens
    {
      && lens.Length0 == 2 && lens.Length1 == 129
      && forall f, b :: 0 <= f < 2 && 0 <= b < 129 ==> lens[f, b] == |OfLength(nets.Keys, f, b)|
    }

    constructor (h: Digest, key: Bytes)
      ensures nets == map[] && Valid(h, key) && fresh(lens)
    {
      nets := map[];
      lens := new int[2, 129]((i, j) => 0);
      hash := 0;
      new;
      forall f, b | 0 <= f < 2 && 0 <= b < 129 ensures |OfLength(nets.Keys, f, b)| == 0 {
        assert OfLength(nets.Keys, f, b) == {};
      }
    }

    /** `composition.apply` for one record. Where the record cannot be counted the program ends, which is
        the answer no. */
    method Apply(h: Digest, key: Bytes, r: Record) returns (ok: bool)
      requires Valid(h, key)
      modifies this, lens
      ensures Valid(h, key) && lens == old(lens)
      ensures ok <==> RunOne(old(nets), r).Some?
      ensures nets == if ok then Step(old(nets), r) else old(nets)
      ensures ok && r.op == OP_ADD ==> r.prefix in nets && nets[r.prefix] == r.exp
      ensures ok && r.op != OP_ADD ==> r.prefix !in nets
      ensures forall q :: q != r.prefix ==> (q in nets <==> q in old(nets)) && (q in nets ==> nets[q] == old(nets)[q])
    {
      var p := r.prefix;
      var had := p in nets;
      if r.op == OP_ADD {
        if had {
          nets := nets[p := r.exp];
          assert nets.Keys == old(nets).Keys;
        } else {
          if !(0 <= p.bits < lens.Length1) {
            return false;
          }
          Insert(h, key, p, r.exp);
        }
      } else if had {
        Remove(h, key, p);
      } else {
        assert nets - {p} == nets;
      }
      return true;
    }

    method Insert(h: Digest, key: Bytes, p: Prefix, exp: i64)
      requires Valid(h, key) && ValidPrefix(p) && p !in nets
      modifies this, lens
      ensures Valid(h, key) && lens == old(lens) && nets == old(nets)[p := exp]
    {
      ghost var s := nets.Keys;
      FoldAdd(h, key, s, p);
      CountAdd(s, p);
      hash := Xor64(hash, h(key, Material(p)));
      Bump(p, 1);
      nets := nets[p := exp];
      assert nets.Keys == s + {p};
    }

    method Remove(h: Digest, key: Bytes, p: Prefix)
      requires Valid(h, key) && p in nets
      modifies this, lens
      ensures Valid(h, key) && lens == old(lens) && nets == old(nets) - {p}
    {
      ghost var s := nets.Keys;
      FoldDrop(h, key, s, p);
      CountDrop(s, p);
      hash := Xor64(hash, h(key, Material(p)));
      Bump(p, -1);
      nets := nets - {p};
      assert nets.Keys == s - {p};
    }

    /** Moves the counter of a prefix's family and length. */
    method Bump(p: Prefix, delta: int)
      requires ValidPrefix(p) && lens.Length0 == 2 && lens.Length1 == 129
      modifies lens
      ensures forall f, b :: 0 <= f < 2 && 0 <= b < 129 ==>
                lens[f, b] == old(lens[f, b]) + (if Family(p) == f && p.bits == b then delta else 0)
    {
      lens[Family(p), p.bits] := lens[Family(p), p.bits] + delta;
    }

    /** `applyPackage`'s and `snapshot`'s loop over records: it runs to its end exactly when every added
        prefix has a length of its family. */
    method ApplyAll(h: Digest, key: Bytes, recs: seq<Record>) returns (ok: bool)
      requires Valid(h, key)
      modifies this, lens
      ensures Valid(h, key) && lens == old(lens)
      ensures ok <==> Applicable(recs)
      ensures ok ==> nets == Replay(old(nets), recs)
    {
      for i := 0 to |recs|
        invariant Valid(h, key) && lens == old(lens)
        invariant Applicable(recs[..i]) && nets == Replay(old(nets), recs[..i])
      {
        ghost var before := nets;
        ok := Apply(h, key, recs[i]);
        ReplayOneMore(old(nets), recs, i);
        TakesIff(before, recs[i]);
        if !ok {
          return false;
        }
      }
      assert recs[..|recs|] == recs;
      return true;
    }

    /** `composition.contains`: lengths from longest to shortest, skipping those no prefix has. The
        probe asks for masked keys, so it sees the masked prefixes of the map and no others. */
    method Contains(ip: Addr, now: i64) returns (found: bool)
      requires Counted() && ValidNets(nets)
      ensures found <==> Covered(MaskedPart(nets), Unmap(ip), now)
      ensures MaskedNets(nets) ==> (found <==> Covered(nets, Unmap(ip), now))
    {
      var u := Unmap(ip);
      ghost var part := MaskedPart(nets);
      assert MaskedNets(nets) ==> part == nets;
      var fam := if u.V4? then 0 else 1;
      var bits: int := BitLen(u);
      while bits >= 0
        invariant -1 <= bits <= BitLen(u)
        invariant forall p :: p in part && p.bits > bits ==> !Live(part, p, u, now)
      {
        var q := Masked(Prefix(u, bits));
        MaskIsMultiple(u, bits);
        if lens[fam, bits] != 0 && q in nets && (nets[q] == 0 || nets[q] > now) {
          CoverIsMaskedAddress(q, u);
          assert Live(part, q, u, now);
          return true;
        }
        forall p | p in part && p.bits == bits ensures !Live(part, p, u, now) {
          CoverIsMaskedAddress(p, u);
          if lens[fam, bits] == 0 {
            assert OfLength(nets.Keys, fam, bits) == {};
            assert p !in OfLength(nets.Keys, fam, bits);
          }
        }
        bits := bits - 1;
      }
      return false;
    }

    /** `composition.size`: the counters split the map into addresses and wider prefixes. */
    method Size() returns (prefixes: int, addrs: int)
      requires Counted() && ValidNets(nets)
      ensures addrs == |set p | p in nets.Keys && p.bits == BitLen(p.addr)|
      ensures prefixes + addrs == |nets|
    {
      prefixes, addrs := 0, 0;
      for fam := 0 to 2
        invariant addrs == |FullBelow(nets.Keys, fam, 0)|
        invariant prefixes + addrs == |Below(nets.Keys, fam, 0)|
      {
        var full := if fam == 1 then 128 else 32;
        for bits := 0 to 129
          invariant addrs == |FullBelow(nets.Keys, fam, bits)|
          invariant prefixes + addrs == |Below(nets.Keys, fam, bits)|
        {
          BelowStep(nets.Keys, fam, bits);
          if bits == full {
            addrs := addrs + lens[fam, bits];
          } else {
            prefixes := prefixes + lens[fam, bits];
          }
        }
        BelowNextFamily(nets.Keys, fam);
      }
      BelowAll(nets.Keys);
    }
  }

  lemma CountAdd(s: set<Prefix>, p: Prefix)
    requires p !in s
    ensures forall f, b :: |OfLength(s + {p}, f, b)| ==
              |OfLength(s, f, b)| + (if Family(p) == f && p.bits == b then 1 else 0)
  {
    forall f, b ensures |OfLength(s + {p}, f, b)| ==
              |OfLength(s, f, b)| + (if Family(p) == f && p.bits == b then 1 else 0) {
      if Family(p) == f && p.bits == b {
        assert OfLength(s + {p}, f, b) == OfLength(s, f, b) + {p};
      } else {
        assert OfLength(s + {p}, f, b) == OfLength(s, f, b);
      }
    }
  }

  lemma CountDrop(s: set<Prefix>, p: Prefix)
    requires p in s
    ensures forall f, b :: |OfLength(s - {p}, f, b)| ==
              |OfLength(s, f, b)| - (if Family(p) == f && p.bits == b then 1 else 0)
  {
    CountAdd(s - {p}, p);
    assert s - {p} + {p} == s;
  }

  // ---- sums over the counters ----

  /** The prefixes that come before `(fam, bits)` when families and lengths are walked in order. */
  ghost function Below(s: set<Prefix>, fam: nat, bits: int): set<Prefix> {
    set p | p in s && (Family(p) < fam || (Family(p) == fam && p.bits < bits))
  }

  ghost function FullBelow(s: set<Prefix>, fam: nat, bits: int): set<Prefix> {
    set p | p in Below(s, fam, bits) && p.bits == BitLen(p.addr)
  }

  lemma BelowStep(s: set<Prefix>, fam: nat, bits: nat)
    requires fam < 2
    ensures |Below(s, fam, bits + 1)| == |Below(s, fam, bits)| + |OfLength(s, fam, bits)|
    ensures |FullBelow(s, fam, bits + 1)| ==
            |FullBelow(s, fam, bits)| + (if bits == (if fam == 1 then 128 else 32) then |OfLength(s, fam, bits)| else 0)
  {
    var before, at := Below(s, fam, bits), OfLength(s, fam, bits);
    assert Below(s, fam, bits + 1) == before + at;
    assert before !! at;
    FullBelowStep(s, fam, bits);
  }

  lemma FullBelowStep(s: set<Prefix>, fam: nat, bits: nat)
    requires fam < 2
    ensures |FullBelow(s, fam, bits + 1)| ==
            |FullBelow(s, fam, bits)| + (if bits == (if fam == 1 then 128 else 32) then |OfLength(s, fam, bits)| else 0)
  {
    var before, at := FullBelow(s, fam, bits), OfLength(s, fam, bits);
    if bits == (if fam == 1 then 128 else 32) {
      assert FullBelow(s, fam, bits + 1) == before + at;
      assert before !! at;
    } else {
      assert FullBelow(s, fam, bits + 1) == before;
    }
  }

  lemma BelowNextFamily(s: set<Prefix>, fam: nat)
    requires fam < 2 && forall p :: p in s ==> ValidPrefix(p)
    ensures Below(s, fam + 1, 0) == Below(s, fam, 129)
    ensures FullBelow(s, fam + 1, 0) == FullBelow(s, fam, 129)
  {
  }

  lemma BelowAll(s: set<Prefix>)
    requires forall p :: p in s ==> ValidPrefix(p)
    ensures Below(s, 2, 0) == s
    ensures FullBelow(s, 2, 0) == set p | p in s && p.bits == BitLen(p.addr)
  {
  }
}
