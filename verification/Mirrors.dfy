/** Which live sets are mirrored: `Sync` of internal/dyn/dyn.go follows the names a generation brings. */
module Mirrors {
  import opened Bits
  import Netip
  import opened Store
  import opened Decide
  import opened DecideLaws
  import opened DecideLoaded

  /** `NameOf`. */
  function SubjectOf(uuid: Name, name: Name): Name {
    if name == NO_NAME then uuid else name
  }

  /** The live data a check sees: a set that is not mirrored is a miss. */
  function Visible(held: set<Name>, mirrored: map<Name, Name>): set<Name> {
    set u | u in held && u in mirrored
  }

  /** Mirroring the sets a snapshot uses is enough: the answer is the one that all live data would give. */
  lemma MirroringSuffices(t: Tree, s: Snapshot, mirrored: map<Name, Name>, name: string, raw: string, addr: Option<Netip.Addr>, held: set<Name>)
    requires TreeReadable(t) && SnapshotOf(t, s) && forall u :: u in s.live ==> u in mirrored
    ensures Answer(Some(s), name, raw, addr, Visible(held, mirrored)) == Answer(Some(s), name, raw, addr, held)
  {
    MirroredSetsSuffice(t, s, name, raw, addr, held, Visible(held, mirrored));
  }

  // ---- the names of a generation ----

  function TrimFront(s: string): string {
    if s != "" && s[0] == ' ' then TrimFront(s[1..]) else s
  }

  function TrimBack(s: string): string {
    if s != "" && s[|s| - 1] == ' ' then TrimBack(s[..|s| - 1]) else s
  }

  /** A live name as the load reads it: trimmed, in lower case. */
  function Normal(n: Name): Name {
    Name(Lower(TrimBack(TrimFront(n.text))))
  }

  /** `loadLive`: the tree declares the normal forms of the names a pack brings. */
  ghost predicate Declares(live: map<Name, Name>, raw: map<Name, Name>) {
    forall u :: u in live <==> exists v :: v in raw && Normal(v) == u
  }

  /** After a swap the mirrored sets are the pack's own names. They include every live set the snapshot uses if and
      only if each name of the pack whose normal form the policy uses is there in its normal form. */
  lemma SwapMirrorsIff(t: Tree, s: Snapshot, raw: map<Name, Name>, mirrored: map<Name, Name>)
    requires SnapshotOf(t, s) && Declares(t.live, raw) && mirrored.Keys == raw.Keys
    ensures (forall u :: u in s.live ==> u in mirrored) <==>
            forall v :: v in raw && Normal(v) != NO_NAME && Uses(s.sets, s.profiles, Normal(v)) ==> Normal(v) in raw
  {
    forall u ensures u in s.live <==> u in t.live && u != NO_NAME && Uses(s.sets, s.profiles, u) {
    }
    if forall v :: v in raw && Normal(v) != NO_NAME && Uses(s.sets, s.profiles, Normal(v)) ==> Normal(v) in raw {
      forall u | u in s.live ensures u in mirrored {
        var v :| v in raw && Normal(v) == u;
      }
    }
  }

  class Roster {
    /** The subject each mirrored set listens on. */
    var sets: map<Name, Name>
    var subs: set<Name>

    ghost predicate Valid()
      reads this
    {
      sets.Keys == subs
    }

    constructor ()
      ensures Valid() && sets == map[]
    {
      sets, subs := map[], {};
    }

    /** `Sync`: with every subscription granted the mirrored sets are the wanted ones; a set that stays keeps
        the subject it has; a refusal detaches nothing. */
    method Sync(want: map<Name, Name>, refused: set<Name>) returns (ok: bool)
      requires Valid()
      modifies this
      ensures Valid()
      ensures ok <==> forall u :: u in want && u !in old(sets) ==> u !in refused
      ensures ok ==> sets.Keys == want.Keys
      ensures !ok ==> forall u :: u in sets ==> u in want || u in old(sets)
      ensures forall u :: u in old(sets) && (!ok || u in want) ==> u in sets && sets[u] == old(sets)[u]
      ensures forall u :: u in sets && u !in old(sets) ==> sets[u] == SubjectOf(u, want[u])
      ensures ok ==> forall u :: u in want ==>
                (sets[u] == SubjectOf(u, want[u]) <==> u !in old(sets) || old(sets)[u] == SubjectOf(u, want[u]))
    {
      ok := Attach(want, refused);
      if ok {
        Detach(want);
      }
    }

    method Attach(want: map<Name, Name>, refused: set<Name>) returns (ok: bool)
      requires Valid()
      modifies this
      ensures Valid()
      ensures ok <==> forall u :: u in want && u !in old(sets) ==> u !in refused
      ensures ok ==> forall u :: u in want ==> u in sets
      ensures forall u :: u in old(sets) ==> u in sets && sets[u] == old(sets)[u]
      ensures forall u :: u in sets && u !in old(sets) ==> u in want && sets[u] == SubjectOf(u, want[u])
    {
      var todo := want.Keys;
      while todo != {}
        invariant Valid() && todo <= want.Keys
        invariant forall u :: u in want && u !in todo ==> u in sets && (u !in old(sets) ==> u !in refused)
        invariant forall u :: u in old(sets) ==> u in sets && sets[u] == old(sets)[u]
        invariant forall u :: u in sets && u !in old(sets) ==> u in want && u !in todo && sets[u] == SubjectOf(u, want[u])
        decreases |todo|
      {
        var u :| u in todo;
        todo := todo - {u};
        if u in sets {
          continue;
        }
        if u in refused {
          return false;
        }
        sets, subs := sets[u := SubjectOf(u, want[u])], subs + {u};
      }
      return true;
    }

    method Detach(want: map<Name, Name>)
      requires Valid() && forall u :: u in want ==> u in sets
      modifies this
      ensures Valid() && sets.Keys == want.Keys
      ensures forall u :: u in want ==> sets[u] == old(sets)[u]
    {
      var todo := subs;
      while todo != {}
        invariant Valid() && todo <= subs
        invariant forall u :: u in sets <==> u in old(sets) && (u in want || u in todo)
        invariant forall u :: u in sets ==> sets[u] == old(sets)[u]
        decreases |todo|
      {
        var u :| u in todo;
        todo := todo - {u};
        if u !in want {
          sets, subs := sets - {u}, subs - {u};
        }
      }
    }
  }

  /** A set that is renamed between two generations stays on the subject it had. */
  method RenamedStaysBehind(u: Name, before: Name, after: Name) returns (r: Roster, ok: bool)
    requires before != NO_NAME && after != NO_NAME && before != after
    ensures ok && u in r.sets && r.sets[u] == before != SubjectOf(u, after)
  {
    r := new Roster();
    ok := r.Sync(map[u := before], {});
    ok := r.Sync(map[u := after], {});
  }

  const BANS := Name("bans")
  const CAPITAL := Name("Bans")

  lemma CapitalIsNormalised()
    ensures Normal(CAPITAL) == BANS
  {
    assert TrimFront("Bans") == "Bans" && TrimBack("Bans") == "Bans";
    assert Lower("Bans") == "bans";
  }

  /** The pack's names, and what is mirrored after a swap; and what is mirrored after a restart. */
  const WRITTEN: map<Name, Name> := map[CAPITAL := BANS]
  const READ: map<Name, Name> := map[BANS := BANS]

  /** A swap mirrors the names as the pack writes them, a restart as the load reads them. */
  method MirrorTwice() returns (swapped: Roster, restarted: Roster)
    ensures swapped.sets == WRITTEN && restarted.sets == READ == InverseSnapshot(BANS).live
  {
    swapped := new Roster();
    var ok := swapped.Sync(WRITTEN, {});
    restarted := new Roster();
    ok := restarted.Sync(READ, {});
  }

  lemma CapitalIsDeclared()
    ensures Declares(InverseTree(BANS).live, WRITTEN)
  {
    CapitalIsNormalised();
  }

  /** A pack that names a live set in capitals: its tree loads and asks for the name in lower case, so after a swap an
      address on the list is denied, whatever arrives; after a restart it is allowed. */
  lemma CapitalsAreMissed(ip: Netip.Addr)
    ensures TreeReadable(InverseTree(BANS)) && SnapshotOf(InverseTree(BANS), InverseSnapshot(BANS))
    ensures Declares(InverseTree(BANS).live, WRITTEN)
    ensures Answer(Some(InverseSnapshot(BANS)), "", "", Some(ip), Visible({BANS}, WRITTEN)).face.verdict == Block
    ensures Answer(Some(InverseSnapshot(BANS)), "", "", Some(ip), Visible({BANS}, READ)).face.verdict == Pass
  {
    CapitalIsDeclared();
    LoadingListClosesRoute(BANS, ip);
    assert Visible({BANS}, WRITTEN) == {};
    assert Visible({BANS}, READ) == {BANS};
  }
}
