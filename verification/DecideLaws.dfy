/** What holds of every check: the order of rows, rows that cannot matter, sets that are still loading,
    what a deny discloses, and which live sets a check can touch. */
module DecideLaws {
  import opened Bits
  import opened Netip
  import opened Netset
  import opened Store
  import opened Decide

  /** The snapshot with other rows in one profile. */
  function WithRules(s: Snapshot, n: Name, rules: seq<Rule>): Snapshot
    requires n in s.profiles
  {
    s.(profiles := s.profiles[n := s.profiles[n].(rules := rules)])
  }

  // ---- the row that answers ----

  /** The row is the topmost of its action whose set holds the address. */
  predicate Topmost(s: Snapshot, rules: seq<Rule>, i: nat, a: Action, k: Client) {
    i < |rules| && Matched(s, rules[i], a, k) && forall j :: 0 <= j < i ==> !Matched(s, rules[j], a, k)
  }

  /** A marked answer is the topmost allow row's, or with no allow row that of the topmost deny row, with
      that row's set, code and response. An answer without a mark is the default's. */
  lemma AnswerNamesItsRow(s: Snapshot, p: Profile, k: Client)
    ensures var r := Decided(s, p, k);
            var allow := AnyMatched(s, p.rules, Allow, k);
            var deny := AnyMatched(s, p.rules, Deny, k);
            && (r.engine.mark.Some? <==> allow || deny)
            && (r.engine.mark.None? ==> r.face == Fallback(p))
            && (r.engine.mark.Some? ==>
                  exists i: nat :: && Topmost(s, p.rules, i, if allow then Allow else Deny, k)
                              && r.engine.mark.value.row == i + 1 && r.engine.mark.value.set_ == p.rules[i].set_
                              && (p.rules[i].code != "" ==> r.face.code == p.rules[i].code)
                              && (!allow ==> r.face.response == Coded(p.rules[i].response, BLOCKED)))
  {
    FirstHitIs(s, p.rules, Allow, k);
    FirstHitIs(s, p.rules, Deny, k);
    var allow, deny := FirstHit(s, p.rules, Allow, k), FirstHit(s, p.rules, Deny, k);
    if allow.Some? {
      ExplainIsMembership(s.sets[allow.value.rule.set_], k);
      assert Topmost(s, p.rules, allow.value.row, Allow, k);
    } else if deny.Some? {
      ExplainIsMembership(s.sets[deny.value.rule.set_], k);
      assert Topmost(s, p.rules, deny.value.row, Deny, k);
    }
  }

  // ---- side rows ----

  /** The address is in the row's dataset. */
  predicate InDataset(s: Snapshot, r: Rule, k: Client) {
    r.dataset in s.lists && ListContains(s.lists[r.dataset], k)
  }

  predicate RowAsked(s: Snapshot, rules: seq<Rule>, k: Client, ask: Ask) {
    exists i :: 0 <= i < |rules| && rules[i].action.Request? && InDataset(s, rules[i], k) != rules[i].negated &&
      rules[i].ask == ask
  }

  predicate RowBanned(s: Snapshot, rules: seq<Rule>, k: Client, ban: Ban) {
    exists i :: 0 <= i < |rules| && rules[i].action.Write? && InDataset(s, rules[i], k) != rules[i].negated &&
      ban == Ban(rules[i].list, rules[i].write, k.ip, rules[i].ttl, Coded(rules[i].code, LIST_CODE))
  }

  lemma RowAskedGrows(s: Snapshot, rules: seq<Rule>, k: Client, a: Ask)
    requires rules != []
    ensures var n := |rules| - 1;
            RowAsked(s, rules, k, a) <==> RowAsked(s, rules[..n], k, a) || RowAsked(s, [rules[n]], k, a)
  {
    var n := |rules| - 1;
    var last := [rules[n]];
    assert last[0] == rules[n];
    assert forall i :: 0 <= i < n ==> rules[..n][i] == rules[i];
  }

  lemma RowBannedGrows(s: Snapshot, rules: seq<Rule>, k: Client, b: Ban)
    requires rules != []
    ensures var n := |rules| - 1;
            RowBanned(s, rules, k, b) <==> RowBanned(s, rules[..n], k, b) || RowBanned(s, [rules[n]], k, b)
  {
    var n := |rules| - 1;
    var last := [rules[n]];
    assert last[0] == rules[n];
    assert forall i :: 0 <= i < n ==> rules[..n][i] == rules[i];
  }

  /** A request is sent, and a write is made, exactly when some row of that kind finds the address in its dataset,
      or for a negated row does not find it; nothing happens twice for one row. */
  lemma {:induction false} RowsAre(s: Snapshot, rules: seq<Rule>, k: Client)
    ensures var e := RowEffects(s, rules, k);
            && (forall a :: a in e.asks <==> RowAsked(s, rules, k, a))
            && (forall b :: b in e.bans <==> RowBanned(s, rules, k, b))
            && |e.asks| + |e.bans| <= |rules| && e.fired == []
  {
    if rules != [] {
      var n := |rules| - 1;
      RowsAre(s, rules[..n], k);
      forall a ensures RowAsked(s, rules, k, a) <==> RowAsked(s, rules[..n], k, a) || RowAsked(s, [rules[n]], k, a) {
        RowAskedGrows(s, rules, k, a);
      }
      forall b ensures RowBanned(s, rules, k, b) <==> RowBanned(s, rules[..n], k, b) || RowBanned(s, [rules[n]], k, b) {
        RowBannedGrows(s, rules, k, b);
      }
    }
  }

  /** Rows act in their order: the effects of a list are those of its first part, then those of its second. */
  lemma {:induction false} RowsInOrder(s: Snapshot, a: seq<Rule>, b: seq<Rule>, k: Client)
    ensures var x, y := RowEffects(s, a, k), RowEffects(s, b, k);
            RowEffects(s, a + b, k) == Effects(x.asks + y.asks, x.bans + y.bans, x.fired + y.fired)
  {
    if b == [] {
      assert a + b == a;
    } else {
      var n := |b| - 1;
      assert (a + b)[..|a| + n] == a + b[..n];
      RowsInOrder(s, a, b[..n], k);
    }
  }

  // ---- outcomes ----

  predicate Asked(outcomes: seq<Outcome>, v: Event, ask: Ask) {
    exists i :: 0 <= i < |outcomes| && Selects(v, outcomes[i]) && outcomes[i].verb != "" && outcomes[i].ask == ask
  }

  predicate Banned(outcomes: seq<Outcome>, v: Event, ip: Option<Addr>, code: string, ban: Ban) {
    exists i :: 0 <= i < |outcomes| && Selects(v, outcomes[i]) && outcomes[i].verb == "" && ip.Some? &&
      ban == Ban(outcomes[i].list, outcomes[i].write, ip.value, outcomes[i].ttl, Coded(outcomes[i].code, code))
  }

  /** Outcomes add the requests and the writes of exactly those that the event selects. */
  lemma {:induction false} OutcomesAre(e: Effects, outcomes: seq<Outcome>, v: Event, ip: Option<Addr>, code: string)
    ensures var r := OutcomeEffects(e, outcomes, v, ip, code);
            && (forall a :: a in r.asks <==> a in e.asks || Asked(outcomes, v, a))
            && (forall b :: b in r.bans <==> b in e.bans || Banned(outcomes, v, ip, code, b))
  {
    if outcomes != [] {
      var n := |outcomes| - 1;
      OutcomesAre(e, outcomes[..n], v, ip, code);
      forall a ensures Asked(outcomes, v, a) <==>
                       Asked(outcomes[..n], v, a) || (Selects(v, outcomes[n]) && outcomes[n].verb != "" && outcomes[n].ask == a) {
        AskedGrows(outcomes, n, v, a);
      }
      forall b ensures Banned(outcomes, v, ip, code, b) <==>
                       Banned(outcomes[..n], v, ip, code, b) || Banned([outcomes[n]], v, ip, code, b) {
        BannedGrows(outcomes, n, v, ip, code, b);
      }
    }
  }

  lemma AskedGrows(outcomes: seq<Outcome>, n: nat, v: Event, a: Ask)
    requires n + 1 == |outcomes|
    ensures Asked(outcomes, v, a) <==>
            Asked(outcomes[..n], v, a) || (Selects(v, outcomes[n]) && outcomes[n].verb != "" && outcomes[n].ask == a)
  {
    assert forall i :: 0 <= i < n ==> outcomes[..n][i] == outcomes[i];
  }

  lemma BannedGrows(outcomes: seq<Outcome>, n: nat, v: Event, ip: Option<Addr>, code: string, b: Ban)
    requires n + 1 == |outcomes|
    ensures Banned(outcomes, v, ip, code, b) <==>
            Banned(outcomes[..n], v, ip, code, b) || Banned([outcomes[n]], v, ip, code, b)
  {
    var last := [outcomes[n]];
    assert last[0] == outcomes[n];
    assert forall i :: 0 <= i < n ==> outcomes[..n][i] == outcomes[i];
  }

  /** A fuller queue fires no less, and a dropped request fires everything a full queue does. */
  lemma OverloadGrows(p: Profile, addr: Option<Addr>, fill: int, shed: bool, fill': int, shed': bool, reason: string)
    requires fill <= fill' && (shed ==> shed')
    ensures var x, y := Overloaded(p, addr, fill, shed, reason), Overloaded(p, addr, fill', shed', reason);
            (forall a :: a in x.asks ==> a in y.asks) && (forall b :: b in x.bans ==> b in y.bans)
  {
    var ip := if addr.Some? then Some(Unmap(addr.value)) else None;
    OutcomesAre(NOTHING, p.outcomes, Queue(fill, shed), ip, reason);
    OutcomesAre(NOTHING, p.outcomes, Queue(fill', shed'), ip, reason);
    var v, v' := Queue(fill, shed), Queue(fill', shed');
    assert forall o :: Selects(v, o) ==> Selects(v', o);
    forall a | Asked(p.outcomes, v, a) ensures Asked(p.outcomes, v', a) {
    }
    forall b | Banned(p.outcomes, v, ip, reason, b) ensures Banned(p.outcomes, v', ip, reason, b) {
    }
    assert forall a :: a !in NOTHING.asks;
    assert forall b :: b !in NOTHING.bans;
  }

  // ---- the order of rows ----

  lemma {:induction false} FirstGapIs(s: Snapshot, rules: seq<Rule>)
    ensures FirstGap(s, rules).None? <==> forall i :: 0 <= i < |rules| ==> RowGap(s, rules[i]).None?
    ensures FirstGap(s, rules).Some? ==>
              exists i :: 0 <= i < |rules| && RowGap(s, rules[i]) == FirstGap(s, rules)
  {
    if rules != [] {
      var n := |rules| - 1;
      FirstGapIs(s, rules[..n]);
      assert forall j :: 0 <= j < n ==> rules[..n][j] == rules[j];
      if FirstGap(s, rules[..n]).Some? {
        var i :| 0 <= i < n && RowGap(s, rules[..n][i]) == FirstGap(s, rules[..n]);
        assert RowGap(s, rules[i]) == FirstGap(s, rules);
      }
    }
  }

  lemma SameRows(a: seq<Rule>, b: seq<Rule>, i: nat) returns (j: nat)
    requires multiset(a) == multiset(b) && i < |a|
    ensures j < |b| && b[j] == a[i]
  {
    assert a[i] in multiset(a);
    assert a[i] in b;
    j :| 0 <= j < |b| && b[j] == a[i];
  }

  lemma ReorderMatched(s: Snapshot, a: seq<Rule>, b: seq<Rule>, action: Action, k: Client)
    requires multiset(a) == multiset(b) && AnyMatched(s, a, action, k)
    ensures AnyMatched(s, b, action, k)
  {
    var i :| 0 <= i < |a| && Matched(s, a[i], action, k);
    var j := SameRows(a, b, i);
  }

  lemma ReorderGap(s: Snapshot, a: seq<Rule>, b: seq<Rule>)
    requires multiset(a) == multiset(b) && FirstGap(s, a).Some?
    ensures FirstGap(s, b).Some?
  {
    FirstGapIs(s, a);
    FirstGapIs(s, b);
    var i :| 0 <= i < |a| && RowGap(s, a[i]) == FirstGap(s, a);
    var j := SameRows(a, b, i);
  }

  /** Reordering a profile's rows in any way leaves the verdict of every check as it was, an error
      included. */
  lemma ReorderKeepsVerdict(s: Snapshot, name: string, rules: seq<Rule>, raw: string, addr: Option<Addr>, live: set<Name>)
    requires ProfileKey(name) in s.profiles
    requires multiset(rules) == multiset(s.profiles[ProfileKey(name)].rules)
    ensures Answer(Some(WithRules(s, ProfileKey(name), rules)), name, raw, addr, live).face.verdict ==
            Answer(Some(s), name, raw, addr, live).face.verdict
  {
    var n := ProfileKey(name);
    var p := s.profiles[n];
    var s' := WithRules(s, n, rules);
    var p' := s'.profiles[n];
    SnapshotRows(s, s', rules);
    if FirstGap(s, p.rules).Some? { ReorderGap(s, p.rules, rules); }
    if FirstGap(s, rules).Some? { ReorderGap(s, rules, p.rules); }
    if addr.Some? && FirstGap(s, p.rules).None? {
      var k := ClientOf(s, addr.value, live);
      VerdictIs(s, p, k);
      VerdictIs(s', p', k);
      forall a ensures AnyMatched(s', rules, a, k) == AnyMatched(s, p.rules, a, k) {
        SameMatched(s, s', rules, a, k);
        if AnyMatched(s, p.rules, a, k) { ReorderMatched(s, p.rules, rules, a, k); }
        if AnyMatched(s, rules, a, k) { ReorderMatched(s, rules, p.rules, a, k); }
      }
    }
  }

  /** Gaps depend on a snapshot's sets, lists and countries alone. */
  lemma {:induction false} SnapshotRows(s: Snapshot, s': Snapshot, rules: seq<Rule>)
    requires s'.sets == s.sets && s'.lists == s.lists && s'.geo == s.geo
    ensures FirstGap(s', rules) == FirstGap(s, rules)
  {
    if rules != [] { SnapshotRows(s, s', rules[..|rules| - 1]); }
  }

  lemma SameMatched(s: Snapshot, s': Snapshot, rules: seq<Rule>, a: Action, k: Client)
    requires s'.sets == s.sets
    ensures AnyMatched(s', rules, a, k) == AnyMatched(s, rules, a, k)
  {
    assert forall r :: Matched(s', r, a, k) == Matched(s, r, a, k);
  }

  // ---- rows that cannot matter ----

  /** A request or list row whose dataset is there. */
  predicate Harmless(s: Snapshot, r: Rule) {
    !Terminal(r.action) && RowGap(s, r).None?
  }

  /** `b` is `a` with some harmless rows taken out. */
  predicate Thins(s: Snapshot, a: seq<Rule>, b: seq<Rule>) {
    if a == [] then b == []
    else
      var m := |a| - 1;
      (Harmless(s, a[m]) && Thins(s, a[..m], b)) ||
      (b != [] && b[|b| - 1] == a[m] && Thins(s, a[..m], b[..|b| - 1]))
  }

  predicate SameFound(x: Option<Found>, y: Option<Found>) {
    x.Some? == y.Some? && (x.Some? ==> x.value.rule == y.value.rule && x.value.hit == y.value.hit)
  }

  lemma {:induction false} ThinnedRows(s: Snapshot, a: seq<Rule>, b: seq<Rule>, action: Action, k: Client)
    requires Thins(s, a, b) && Terminal(action)
    ensures SameFound(FirstHit(s, a, action, k), FirstHit(s, b, action, k))
    ensures FirstGap(s, a) == FirstGap(s, b)
  {
    if a != [] {
      var m := |a| - 1;
      if Harmless(s, a[m]) && Thins(s, a[..m], b) {
        ThinnedRows(s, a[..m], b, action, k);
      } else {
        ThinnedRows(s, a[..m], b[..|b| - 1], action, k);
      }
    }
  }

  lemma {:induction false} SameHits(s: Snapshot, s': Snapshot, rules: seq<Rule>, a: Action, k: Client)
    requires s'.sets == s.sets
    ensures FirstHit(s', rules, a, k) == FirstHit(s, rules, a, k)
  {
    if rules != [] { SameHits(s, s', rules[..|rules| - 1], a, k); }
  }

  /** Taking out request and list rows whose datasets are there changes nothing that the verdict settles:
      verdict, code, text, response, findings and public reason. */
  lemma SideRowsDoNotDecide(s: Snapshot, name: string, rules: seq<Rule>, raw: string, addr: Option<Addr>, live: set<Name>)
    requires ProfileKey(name) in s.profiles
    requires Thins(s, s.profiles[ProfileKey(name)].rules, rules)
    ensures Answer(Some(WithRules(s, ProfileKey(name), rules)), name, raw, addr, live).face ==
            Answer(Some(s), name, raw, addr, live).face
  {
    var n := ProfileKey(name);
    var s' := WithRules(s, n, rules);
    var p := s.profiles[n];
    SnapshotRows(s, s', rules);
    forall k, a | Terminal(a)
      ensures SameFound(FirstHit(s, p.rules, a, k), FirstHit(s', rules, a, k)) && FirstGap(s, p.rules) == FirstGap(s, rules) {
      ThinnedRows(s, p.rules, rules, a, k);
      SameHits(s, s', rules, a, k);
    }
    assert Terminal(Allow) && Terminal(Deny);
    if addr.Some? {
      var k := ClientOf(s, addr.value, live);
      assert SameFound(FirstHit(s, p.rules, Allow, k), FirstHit(s', rules, Allow, k));
      assert SameFound(FirstHit(s, p.rules, Deny, k), FirstHit(s', rules, Deny, k));
    }
  }

  // ---- sets that are still loading ----

  /** The client with other live sets. */
  function Seen(k: Client, live: set<Name>): Client {
    k.(live := live)
  }

  /** A uuid the block asks about and the other block does not. */
  predicate Own(m: Match, other: Match) {
    exists i :: 0 <= i < |m.live| && m.live[i] !in other.live
  }

  /** Before inversion: losing live data can take this address out. */
  predicate CoreLoses(s: Set, k: Client) {
    !InStatic(s.match_, k) && !InStatic(s.exclude, k) && Own(s.match_, s.exclude)
  }

  /** Before inversion: losing live data can put this address in. */
  predicate CoreGains(s: Set, k: Client) {
    !InStatic(s.exclude, k) && s.exclude.live != [] && (InStatic(s.match_, k) || Own(s.match_, s.exclude))
  }

  predicate Loses(s: Set, k: Client) {
    if s.inverse then CoreGains(s, k) else CoreLoses(s, k)
  }

  predicate Gains(s: Set, k: Client) {
    if s.inverse then CoreLoses(s, k) else CoreGains(s, k)
  }

  /** Some live data, and less of it, put the address in the set with the more and not with the less. */
  ghost predicate CanLose(s: Set, k: Client) {
    exists more: set<Name>, less: set<Name> ::
      less <= more && Member(s, Seen(k, more)) && !Member(s, Seen(k, less))
  }

  ghost predicate CanGain(s: Set, k: Client) {
    exists more: set<Name>, less: set<Name> ::
      less <= more && !Member(s, Seen(k, more)) && Member(s, Seen(k, less))
  }

  predicate Core(s: Set, k: Client) {
    In(s.match_, k) && !In(s.exclude, k)
  }

  lemma LiveShrinks(m: Match, k: Client, less: set<Name>, more: set<Name>)
    requires less <= more
    ensures InLive(m, Seen(k, less)) ==> InLive(m, Seen(k, more))
    ensures InStatic(m, Seen(k, less)) == InStatic(m, k) == InStatic(m, Seen(k, more))
  {
  }

  lemma CoreShrinks(s: Set, k: Client, less: set<Name>, more: set<Name>)
    requires less <= more
    ensures Core(s, Seen(k, more)) && !Core(s, Seen(k, less)) ==> CoreLoses(s, k)
    ensures !Core(s, Seen(k, more)) && Core(s, Seen(k, less)) ==> CoreGains(s, k)
  {
    LiveShrinks(s.match_, k, less, more);
    LiveShrinks(s.exclude, k, less, more);
    if InLive(s.match_, Seen(k, more)) && !InLive(s.exclude, Seen(k, more)) { OwnLive(s, k, more); }
    if InLive(s.match_, Seen(k, less)) && !InLive(s.exclude, Seen(k, less)) { OwnLive(s, k, less); }
  }

  lemma OwnLive(s: Set, k: Client, live: set<Name>)
    requires InLive(s.match_, Seen(k, live)) && !InLive(s.exclude, Seen(k, live))
    ensures Own(s.match_, s.exclude)
  {
    var i :| 0 <= i < |s.match_.live| && s.match_.live[i] in live;
    assert s.match_.live[i] !in s.exclude.live;
  }

  lemma CoreLosesWitness(s: Set, k: Client) returns (more: set<Name>)
    requires CoreLoses(s, k)
    ensures Core(s, Seen(k, more)) && !Core(s, Seen(k, {}))
  {
    var i :| 0 <= i < |s.match_.live| && s.match_.live[i] !in s.exclude.live;
    more := {s.match_.live[i]};
    LiveShrinks(s.match_, k, {}, more);
    LiveShrinks(s.exclude, k, {}, more);
    assert s.match_.live[i] in more;
    assert InLive(s.match_, Seen(k, more));
  }

  lemma CoreGainsWitness(s: Set, k: Client) returns (more: set<Name>, less: set<Name>)
    requires CoreGains(s, k)
    ensures less <= more && !Core(s, Seen(k, more)) && Core(s, Seen(k, less))
  {
    var v := s.exclude.live[0];
    if InStatic(s.match_, k) {
      less := {};
    } else {
      var i :| 0 <= i < |s.match_.live| && s.match_.live[i] !in s.exclude.live;
      less := {s.match_.live[i]};
      assert s.match_.live[i] in less;
      assert InLive(s.match_, Seen(k, less));
    }
    more := less + {v};
    LiveShrinks(s.match_, k, less, more);
    LiveShrinks(s.exclude, k, less, more);
    assert s.exclude.live[0] in more;
    assert InLive(s.exclude, Seen(k, more));
  }

  /** Exactly when a set that is still loading can drop an address, and when it can admit one. */
  lemma LoadingIs(s: Set, k: Client)
    ensures CanLose(s, k) <==> Loses(s, k)
    ensures CanGain(s, k) <==> Gains(s, k)
  {
    forall more: set<Name>, less: set<Name> | less <= more
      ensures Member(s, Seen(k, more)) && !Member(s, Seen(k, less)) ==> Loses(s, k)
      ensures !Member(s, Seen(k, more)) && Member(s, Seen(k, less)) ==> Gains(s, k) {
      CoreShrinks(s, k, less, more);
    }
    if CoreLoses(s, k) {
      var more := CoreLosesWitness(s, k);
      assert {} <= more;
      assert Member(s, Seen(k, more)) != s.inverse && Member(s, Seen(k, {})) == s.inverse;
    }
    if CoreGains(s, k) {
      var more, less := CoreGainsWitness(s, k);
      assert Member(s, Seen(k, more)) == s.inverse && Member(s, Seen(k, less)) != s.inverse;
    }
  }

  /** No allow row's set can lose the address and no deny row's set can gain it. */
  predicate SafeToLoad(s: Snapshot, rules: seq<Rule>, k: Client) {
    forall i :: 0 <= i < |rules| && rules[i].set_ in s.sets ==>
      && (rules[i].action.Allow? ==> !Loses(s.sets[rules[i].set_], k))
      && (rules[i].action.Deny? ==> !Gains(s.sets[rules[i].set_], k))
  }

  /** The same, read off the policy: live data only takes from allow sets and only adds to deny sets. */
  predicate SafeByShape(s: Snapshot, rules: seq<Rule>) {
    forall i :: 0 <= i < |rules| && rules[i].set_ in s.sets ==>
      var set_ := s.sets[rules[i].set_];
      && (rules[i].action.Allow? ==> (if set_.inverse then set_.exclude else set_.match_).live == [])
      && (rules[i].action.Deny? ==> (if set_.inverse then set_.match_ else set_.exclude).live == [])
  }

  lemma ShapeIsSafe(s: Snapshot, rules: seq<Rule>, k: Client)
    requires SafeByShape(s, rules)
    ensures SafeToLoad(s, rules, k)
  {
  }

  lemma MatchedShrinks(s: Snapshot, rules: seq<Rule>, k: Client, less: set<Name>, more: set<Name>)
    requires SafeToLoad(s, rules, k) && less <= more
    ensures AnyMatched(s, rules, Allow, Seen(k, more)) ==> AnyMatched(s, rules, Allow, Seen(k, less))
    ensures AnyMatched(s, rules, Deny, Seen(k, less)) ==> AnyMatched(s, rules, Deny, Seen(k, more))
  {
    forall i | 0 <= i < |rules| && rules[i].set_ in s.sets
      ensures Matched(s, rules[i], Allow, Seen(k, more)) ==> Matched(s, rules[i], Allow, Seen(k, less))
      ensures Matched(s, rules[i], Deny, Seen(k, less)) ==> Matched(s, rules[i], Deny, Seen(k, more)) {
      LoadingIs(s.sets[rules[i].set_], k);
    }
  }

  /** Where live data only takes from allow sets and only adds to deny sets, a list that is still loading
      cannot close a route: whatever is allowed with more live data is allowed with less. */
  lemma LoadingNeverCloses(s: Snapshot, name: string, raw: string, addr: Option<Addr>, less: set<Name>, more: set<Name>)
    requires ProfileKey(name) in s.profiles ==>
               SafeByShape(s, s.profiles[ProfileKey(name)].rules) ||
               (addr.Some? && SafeToLoad(s, s.profiles[ProfileKey(name)].rules, ClientOf(s, addr.value, {})))
    requires less <= more && Answer(Some(s), name, raw, addr, more).face.verdict == Pass
    ensures Answer(Some(s), name, raw, addr, less).face.verdict == Pass
  {
    var p := s.profiles[ProfileKey(name)];
    var k := ClientOf(s, addr.value, {});
    if SafeByShape(s, p.rules) { ShapeIsSafe(s, p.rules, k); }
    assert ClientOf(s, addr.value, less) == Seen(k, less) && ClientOf(s, addr.value, more) == Seen(k, more);
    MatchedShrinks(s, p.rules, k, less, more);
    VerdictIs(s, p, Seen(k, less));
    VerdictIs(s, p, Seen(k, more));
  }

  /** Some live data allow the address, and less of it deny it. */
  ghost predicate Closes(s: Snapshot, p: Profile, k: Client) {
    exists more: set<Name>, less: set<Name> ::
      less <= more && Decided(s, p, Seen(k, more)).face.verdict == Pass && Decided(s, p, Seen(k, less)).face.verdict == Block
  }

  function OneRowVerdict(p: Profile, in_: bool): Verdict
    requires |p.rules| == 1
  {
    if p.rules[0].action.Allow? && in_ then Pass
    else if p.rules[0].action.Deny? && in_ then Block
    else if p.fallback.Deny? then Block else Pass
  }

  lemma OneRowDecides(s: Snapshot, p: Profile, k: Client)
    requires |p.rules| == 1 && p.rules[0].set_ in s.sets
    ensures Decided(s, p, k).face.verdict == OneRowVerdict(p, Member(s.sets[p.rules[0].set_], k))
  {
    VerdictIs(s, p, k);
    assert forall a :: AnyMatched(s, p.rules, a, k) <==> Matched(s, p.rules[0], a, k);
  }

  // ---- and exactly when it closes ----

  function LiveOf(s: Snapshot, r: Rule): set<Name> {
    if r.set_ in s.sets then
      (set u | u in s.sets[r.set_].match_.live) + (set u | u in s.sets[r.set_].exclude.live)
    else {}
  }

  /** The live names the rows' sets ask about. */
  function LiveNames(s: Snapshot, rules: seq<Rule>): set<Name> {
    if rules == [] then {} else LiveNames(s, rules[..|rules| - 1]) + LiveOf(s, rules[|rules| - 1])
  }

  lemma {:induction false} LiveNamesHas(s: Snapshot, rules: seq<Rule>, i: nat)
    requires i < |rules|
    ensures LiveOf(s, rules[i]) <= LiveNames(s, rules)
  {
    var n := |rules| - 1;
    if i < n {
      LiveNamesHas(s, rules[..n], i);
      assert rules[..n][i] == rules[i];
    }
  }

  lemma MemberSees(s: Set, k: Client, live: set<Name>, names: set<Name>)
    requires (forall u :: u in s.match_.live ==> u in names) && (forall u :: u in s.exclude.live ==> u in names)
    ensures Member(s, Seen(k, live)) == Member(s, Seen(k, live * names))
  {
    InLiveSees(s.match_, k, live, names);
    InLiveSees(s.exclude, k, live, names);
  }

  lemma InLiveSees(m: Match, k: Client, live: set<Name>, names: set<Name>)
    requires forall u :: u in m.live ==> u in names
    ensures In(m, Seen(k, live)) == In(m, Seen(k, live * names))
  {
    assert InStatic(m, Seen(k, live)) == InStatic(m, Seen(k, live * names));
    assert forall i :: 0 <= i < |m.live| ==> (m.live[i] in live <==> m.live[i] in live * names);
  }

  /** Other live names do not matter to the verdict. */
  lemma VerdictSees(s: Snapshot, p: Profile, k: Client, live: set<Name>)
    ensures Decided(s, p, Seen(k, live)).face.verdict ==
            Decided(s, p, Seen(k, live * LiveNames(s, p.rules))).face.verdict
  {
    var names := LiveNames(s, p.rules);
    forall i, a | 0 <= i < |p.rules|
      ensures Matched(s, p.rules[i], a, Seen(k, live)) == Matched(s, p.rules[i], a, Seen(k, live * names)) {
      LiveNamesHas(s, p.rules, i);
      if p.rules[i].set_ in s.sets { MemberSees(s.sets[p.rules[i].set_], k, live, names); }
    }
    assert forall a :: AnyMatched(s, p.rules, a, Seen(k, live)) == AnyMatched(s, p.rules, a, Seen(k, live * names));
    VerdictIs(s, p, Seen(k, live));
    VerdictIs(s, p, Seen(k, live * names));
  }

  /** The loss of one live name turns an allow into a deny. */
  ghost predicate Flips(s: Snapshot, p: Profile, k: Client, live: set<Name>, u: Name) {
    && u in live
    && Decided(s, p, Seen(k, live)).face.verdict == Pass
    && Decided(s, p, Seen(k, live - {u})).face.verdict == Block
  }

  /** Between more live data that allow and less that deny there is one name whose loss flips the verdict. */
  lemma {:induction false} Descend(s: Snapshot, p: Profile, k: Client, less: set<Name>, more: set<Name>)
    returns (live: set<Name>, u: Name)
    requires less <= more
    requires Decided(s, p, Seen(k, more)).face.verdict == Pass && Decided(s, p, Seen(k, less)).face.verdict == Block
    ensures live <= more && Flips(s, p, k, live, u)
    decreases |more - less|
  {
    assert more - less != {} by { assert more == less + (more - less); }
    u :| u in more - less;
    VerdictIs(s, p, Seen(k, more - {u}));
    if Decided(s, p, Seen(k, more - {u})).face.verdict == Block {
      live := more;
    } else {
      assert more - {u} - less == (more - less) - {u};
      live, u := Descend(s, p, k, less, more - {u});
    }
  }

  /** For every profile: a loading list closes the route of an address if and only if, for some of the live names the
      rows ask about, the loss of a single one of them turns allow into deny. */
  lemma ClosesIff(s: Snapshot, p: Profile, k: Client)
    ensures Closes(s, p, k) <==>
            exists live: set<Name>, u :: live <= LiveNames(s, p.rules) && Flips(s, p, k, live, u)
  {
    var names := LiveNames(s, p.rules);
    if Closes(s, p, k) {
      var more: set<Name>, less: set<Name> :| less <= more &&
        Decided(s, p, Seen(k, more)).face.verdict == Pass && Decided(s, p, Seen(k, less)).face.verdict == Block;
      VerdictSees(s, p, k, more);
      VerdictSees(s, p, k, less);
      var live, u := Descend(s, p, k, less * names, more * names);
    }
    if live: set<Name>, u :| live <= names && Flips(s, p, k, live, u) {
      assert live - {u} <= live;
    }
  }

  /** For a profile of one row the condition is read off its set: a loading list closes the route if and only if
      a deny row over an open default can gain the address, or an allow row over a closed one can lose it. */
  lemma OneRowCloses(s: Snapshot, p: Profile, k: Client)
    requires |p.rules| == 1 && p.rules[0].set_ in s.sets
    ensures Closes(s, p, k) <==>
            || (p.rules[0].action.Deny? && !p.fallback.Deny? && Gains(s.sets[p.rules[0].set_], k))
            || (p.rules[0].action.Allow? && p.fallback.Deny? && Loses(s.sets[p.rules[0].set_], k))
  {
    var set_ := s.sets[p.rules[0].set_];
    LoadingIs(set_, k);
    forall live: set<Name>
      ensures Decided(s, p, Seen(k, live)).face.verdict == OneRowVerdict(p, Member(set_, Seen(k, live))) {
      OneRowDecides(s, p, Seen(k, live));
    }
    if CanGain(set_, k) {
      var more: set<Name>, less: set<Name> :|
        less <= more && !Member(set_, Seen(k, more)) && Member(set_, Seen(k, less));
      assert p.rules[0].action.Deny? && !p.fallback.Deny? ==>
          Decided(s, p, Seen(k, more)).face.verdict == Pass && Decided(s, p, Seen(k, less)).face.verdict == Block;
    }
    if CanLose(set_, k) {
      var more: set<Name>, less: set<Name> :|
        less <= more && Member(set_, Seen(k, more)) && !Member(set_, Seen(k, less));
      assert p.rules[0].action.Allow? && p.fallback.Deny? ==>
          Decided(s, p, Seen(k, more)).face.verdict == Pass && Decided(s, p, Seen(k, less)).face.verdict == Block;
    }
  }

  /** A tree whose one profile denies everything outside one live list. */
  function InverseTree(u: Name): Tree {
    var spec := SetSpec(MatchSpec([], [], [u], []), true, MatchSpec([], [], [], []));
    var row := Rule(OUTSIDE, NO_NAME, false, Deny, "", "", Ask("", "", ""), NO_NAME, "", 0);
    Tree(map[], map[], map[u := u], map[OUTSIDE := spec], map[DEFAULT_NAME := Profile([row], Allow, "", [])], [])
  }

  const OUTSIDE := Name("outside")

  /** That tree, compiled. */
  function InverseSnapshot(u: Name): Snapshot {
    var outside := Set(OUTSIDE, Match([], [], [u]), true, Match([], [], []));
    Snapshot(map[OUTSIDE := outside], InverseTree(u).profiles, map[u := Subject(u)], [], map[u := u])
  }

  lemma InverseTreeReads(u: Name)
    requires u != NO_NAME
    ensures TreeReadable(InverseTree(u)) && Loads(InverseTree(u))
  {
    var t := InverseTree(u);
    var p := t.profiles[DEFAULT_NAME];
    assert RuleOk(p.rules[0]) && ProfileOk(p);
    assert SetResolves(t.sets[OUTSIDE], t);
    assert Refers(p, t.sets.Keys, t.lists.Keys + t.live.Keys, t.live.Keys);
  }

  lemma InverseTreeLoads(u: Name)
    requires u != NO_NAME
    ensures TreeReadable(InverseTree(u)) && SnapshotOf(InverseTree(u), InverseSnapshot(u))
  {
    InverseTreeReads(u);
    InverseSetsCompile(u);
    InverseUses(u);
    assert GeoRead(InverseTree(u), []);
  }

  lemma InverseSetsCompile(u: Name)
    ensures SetsCompiled(InverseTree(u), InverseSnapshot(u).sets)
    ensures ListsCompiled(InverseTree(u), InverseSnapshot(u).lists)
  {
    var t, s := InverseTree(u), InverseSnapshot(u);
    assert SetCompiled(OUTSIDE, t.sets[OUTSIDE], t, s.sets[OUTSIDE]);
  }

  lemma InverseUses(u: Name)
    ensures Uses(InverseSnapshot(u).sets, InverseSnapshot(u).profiles, u)
  {
    var s := InverseSnapshot(u);
    assert SetUses(s.sets[OUTSIDE], u) by { assert s.sets[OUTSIDE].match_.live[0] == u; }
    assert AnySetUses(s.sets, s.sets.Keys, u);
  }

  /** The documented promise fails for an inverse deny set, on a snapshot that a tree loads to: until its list
      arrives, a member of the list is denied. */
  lemma LoadingListClosesRoute(u: Name, ip: Addr)
    requires u != NO_NAME
    ensures TreeReadable(InverseTree(u)) && SnapshotOf(InverseTree(u), InverseSnapshot(u))
    ensures Answer(Some(InverseSnapshot(u)), "", "", Some(ip), {u}).face.verdict == Pass
    ensures Answer(Some(InverseSnapshot(u)), "", "", Some(ip), {}).face.verdict == Block
  {
    InverseTreeLoads(u);
    InverseDenies(u, ip, {u});
    InverseDenies(u, ip, {});
  }

  lemma InverseDenies(u: Name, ip: Addr, live: set<Name>)
    ensures Answer(Some(InverseSnapshot(u)), "", "", Some(ip), live).face.verdict == if u in live then Pass else Block
  {
    var s := InverseSnapshot(u);
    var p := s.profiles[DEFAULT_NAME];
    var set_ := s.sets[OUTSIDE];
    var k := ClientOf(s, ip, live);
    FirstGapIs(s, p.rules);
    VerdictIs(s, p, k);
    assert InLive(set_.match_, k) <==> u in live by { assert set_.match_.live[0] == u; }
    assert Matched(s, p.rules[0], Deny, k) <==> u !in live;
  }
}
