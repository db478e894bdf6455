/** What a check can rely on because the snapshot was loaded from a tree: the only gap is the country
    directory, a disclosed block is a listed block, and every live set it touches is mirrored. */
module DecideLoaded {
  import opened Bits
  import opened Netip
  import opened Netset
  import opened Store
  import opened Decide
  import opened DecideLaws

  // ---- gaps ----

  /** A set that uses countries while no country is loaded. */
  predicate CountriesMissing(s: Snapshot, g: Gap) {
    g.kind == "geo" && s.geo == [] && g.name in s.sets && UsesCountries(s.sets[g.name])
  }

  /** What loading leaves of a row's references. */
  predicate Resolved(s: Snapshot, r: Rule) {
    && (r.set_ != NO_NAME ==> r.set_ in s.sets)
    && (r.dataset != NO_NAME ==> r.dataset in s.lists)
  }

  lemma ProfileResolved(t: Tree, s: Snapshot, n: Name, i: nat)
    requires TreeReadable(t) && SnapshotOf(t, s) && n in s.profiles && i < |s.profiles[n].rules|
    ensures Resolved(s, s.profiles[n].rules[i])
  {
    assert ProfileOk(s.profiles[n]) && Refers(s.profiles[n], t.sets.Keys, t.lists.Keys + t.live.Keys, t.live.Keys);
    assert RuleOk(s.profiles[n].rules[i]);
  }

  lemma GapOfResolved(s: Snapshot, rules: seq<Rule>)
    requires forall i :: 0 <= i < |rules| ==> Resolved(s, rules[i])
    ensures FirstGap(s, rules).Some? ==> CountriesMissing(s, FirstGap(s, rules).value)
  {
    FirstGapIs(s, rules);
  }

  /** Loading rules out every gap but one: a set that uses countries while no country is loaded. */
  lemma OnlyCountriesCanBeMissing(t: Tree, s: Snapshot, n: Name)
    requires TreeReadable(t) && SnapshotOf(t, s) && n in s.profiles
    ensures var g := FirstGap(s, s.profiles[n].rules); g.Some? ==> CountriesMissing(s, g.value)
  {
    var rules := s.profiles[n].rules;
    forall i | 0 <= i < |rules| ensures Resolved(s, rules[i]) { ProfileResolved(t, s, n, i); }
    GapOfResolved(s, rules);
  }

  // ---- what a dataset holds ----

  /** On a loaded snapshot a row's dataset is a list of prefixes, or a live set. */
  lemma DatasetIs(t: Tree, s: Snapshot, r: Rule, k: Client)
    requires SnapshotOf(t, s)
    ensures r.dataset in t.lists ==>
              AllValid(t.lists[r.dataset]) && (InDataset(s, r, k) <==> BlockHas(t.lists[r.dataset], Unmap(k.ip)))
    ensures r.dataset !in t.lists ==> (InDataset(s, r, k) <==> r.dataset in t.live && r.dataset in k.live)
  {
    if r.dataset in t.lists {
      assert BodyOf(s.lists[r.dataset], r.dataset, t.lists[r.dataset]);
      LookupIsMembership(s.lists[r.dataset].table, t.lists[r.dataset], k.ip);
    }
  }

  // ---- what a deny discloses ----

  /** A hit in a compiled block comes from a table built from the prefixes under its name. */
  lemma HitIsListed(m: MatchSpec, t: Tree, c: Match, k: Client)
    requires Compiled(m, t, c)
    ensures var h := FirstSource(c.sources, k.ip);
            h.Some? ==> && (h.value.kind.KindList? || h.value.kind.KindAsn?)
                        && (h.value.kind.KindList? ==> FromBody(h.value, t.lists, k.ip))
                        && (h.value.kind.KindAsn? ==> FromBody(h.value, t.asns, k.ip) && h.value.name in AsnNames(m.asns))
  {
    FirstSourceIs(c.sources, k.ip);
    if FirstSource(c.sources, k.ip).Some? {
      var h := FirstSource(c.sources, k.ip).value;
      var i: nat :| FirstHolding(c.sources, i, k.ip, h);
      var n := |m.lists|;
      if i < n {
        assert SourceOf(c.sources[..n][i], KindList, m.lists[i], t.lists);
        LookupIsMembership(c.sources[i].table, t.lists[h.name], k.ip);
      } else {
        assert SourceOf(c.sources[n..][i - n], KindAsn, AsnNames(m.asns)[i - n], t.asns);
        LookupIsMembership(c.sources[i].table, t.asns[h.name], k.ip);
      }
    }
  }

  /** The hit's interval holds the address and lies inside the prefixes under the hit's name. */
  ghost predicate FromBody(h: Hit, bodies: map<Name, seq<Prefix>>, ip: Addr) {
    && h.name in bodies && AllValid(bodies[h.name]) && h.span.Some?
    && Holds(h.span.value, Unmap(ip))
    && (forall a :: Holds(h.span.value, a) ==> BlockHas(bodies[h.name], a))
  }

  /** A disclosed address or network lies inside the prefixes of a list and contains the client. */
  ghost predicate Justified(r: Reason, list: Name, t: Tree, ip: Addr) {
    && (r.Address? ==> r.addr == ip && list in t.lists && AllValid(t.lists[list]) && BlockHas(t.lists[list], ip))
    && (r.Network? ==> && ValidPrefix(r.net) && Covers(r.net, ip)
                       && list in t.lists && AllValid(t.lists[list])
                       && forall a :: Covers(r.net, a) ==> BlockHas(t.lists[list], a))
    && (r.System? ==> && list == AsnName(r.number) && list in t.asns && AllValid(t.asns[list])
                      && BlockHas(t.asns[list], ip))
    && (r.Country? ==> r.name == list && exists i :: Lists(t, i, ip) && t.geo[i].0 == list)
  }

  lemma ListReason(h: Hit, t: Tree, ip: Addr)
    requires Unmap(ip) == ip && h.kind.KindList? && FromBody(h, t.lists, ip)
    ensures Justified(PublicReason(h, ip), h.name, t, ip)
  {
    var span := h.span.value;
    var net := PrefixOf(span);
    if net.Some? {
      var p := net.value;
      BlockOfIsCidr(span, p);
      assert Covers(p, ip);
      CoversIsRange(p, ip);
      assert Pow2(0) == 1;
    }
  }

  lemma AsnReason(h: Hit, t: Tree, asns: seq<nat>, ip: Addr)
    requires Unmap(ip) == ip && h.kind.KindAsn? && FromBody(h, t.asns, ip) && h.name in AsnNames(asns)
    ensures Justified(PublicReason(h, ip), h.name, t, ip)
  {
    var i :| 0 <= i < |asns| && AsnNames(asns)[i] == h.name;
    AsnSurvives(asns[i]);
    assert Holds(h.span.value, ip);
  }

  /** A hit of a compiled set. */
  lemma HitReason(t: Tree, n: Name, spec: SetSpec, set_: Set, geo: seq<Country>, k: Client)
    requires SetCompiled(n, spec, t, set_) && GeoCompiled(t, geo)
    requires Unmap(k.ip) == k.ip && k.country == LookupGeo(geo, k.ip)
    ensures var h := Explain(set_, k);
            h.Some? ==> Justified(PublicReason(h.value, k.ip), h.value.name, t, k.ip)
  {
    var h := Explain(set_, k);
    if h.Some? {
      HitIsListed(spec.match_, t, set_.match_, k);
      FirstLiveIs(set_.match_.live, k.live);
      if h.value.kind.KindList? { ListReason(h.value, t, k.ip); }
      if h.value.kind.KindAsn? { AsnReason(h.value, t, spec.match_.asns, k.ip); }
      if h.value.kind.KindCountry? { CountryIsFirst(t, geo, k.ip); }
    }
  }

  lemma RowReason(t: Tree, s: Snapshot, r: Rule, k: Client)
    requires SnapshotOf(t, s)
    requires Unmap(k.ip) == k.ip && k.country == LookupGeo(s.geo, k.ip)
    ensures var h := RowHit(s, r, k);
            h.Some? ==> Justified(PublicReason(h.value, k.ip), h.value.name, t, k.ip)
  {
    if r.set_ in s.sets { HitReason(t, r.set_, t.sets[r.set_], s.sets[r.set_], s.geo, k); }
  }

  lemma DecidedDiscloses(t: Tree, s: Snapshot, p: Profile, k: Client)
    requires SnapshotOf(t, s)
    requires Unmap(k.ip) == k.ip && k.country == LookupGeo(s.geo, k.ip)
    ensures var r := Decided(s, p, k);
            !r.face.reason.NoReason? ==> r.engine.mark.Some? && Justified(r.face.reason, r.engine.mark.value.list, t, k.ip)
  {
    FirstHitIs(s, p.rules, Deny, k);
    var deny := FirstHit(s, p.rules, Deny, k);
    if deny.Some? { RowReason(t, s, deny.value.rule, k); }
  }

  /** Whatever a deny tells the client is true of the list it names: the block contains the client and
      every address in it is listed. */
  lemma DisclosureIsListed(t: Tree, s: Snapshot, name: string, raw: string, addr: Option<Addr>, live: set<Name>)
    requires SnapshotOf(t, s)
    ensures var r := Answer(Some(s), name, raw, addr, live);
            !r.face.reason.NoReason? ==>
              addr.Some? && r.engine.mark.Some? && Justified(r.face.reason, r.engine.mark.value.list, t, Unmap(addr.value))
  {
    var n := ProfileKey(name);
    if n in s.profiles && addr.Some? { DecidedDiscloses(t, s, s.profiles[n], ClientOf(s, addr.value, live)); }
  }

  // ---- live sets ----

  /** The two sources of live data agree on the mirrored sets. */
  predicate Agree(s: Snapshot, x: set<Name>, y: set<Name>) {
    forall u :: u in s.live ==> (u in x <==> u in y)
  }

  lemma {:induction false} FirstLiveAgrees(s: Snapshot, live: seq<Name>, x: set<Name>, y: set<Name>)
    requires Agree(s, x, y) && forall i :: 0 <= i < |live| ==> live[i] in s.live
    ensures FirstLive(live, x) == FirstLive(live, y)
  {
    if live != [] {
      assert live[0] in s.live;
      FirstLiveAgrees(s, live[1..], x, y);
    }
  }

  /** A live set that is declared and used is one to mirror. */
  lemma UsedIsLive(t: Tree, s: Snapshot, u: Name)
    requires SnapshotOf(t, s) && u in t.live && u != NO_NAME && Uses(s.sets, s.profiles, u)
    ensures u in s.live
  {
  }

  lemma SpecLoaded(t: Tree, s: Snapshot, n: Name)
    requires TreeReadable(t) && SnapshotOf(t, s) && n in s.sets
    ensures n in t.sets && SpecOk(t.sets[n]) && SetResolves(t.sets[n], t)
    ensures s.sets[n].match_.live == t.sets[n].match_.live && s.sets[n].exclude.live == t.sets[n].exclude.live
  {
    assert SetCompiled(n, t.sets[n], t, s.sets[n]);
  }

  lemma UseMirrored(t: Tree, s: Snapshot, n: Name, u: Name)
    requires TreeReadable(t) && SnapshotOf(t, s) && n in s.sets && SetUses(s.sets[n], u)
    ensures u in s.live
  {
    SpecLoaded(t, s, n);
    assert AnySetUses(s.sets, s.sets.Keys, u);
    UsedIsLive(t, s, u);
  }

  lemma SetLiveMirrored(t: Tree, s: Snapshot, n: Name)
    requires TreeReadable(t) && SnapshotOf(t, s) && n in s.sets
    ensures forall i :: 0 <= i < |s.sets[n].match_.live| ==> s.sets[n].match_.live[i] in s.live
    ensures forall i :: 0 <= i < |s.sets[n].exclude.live| ==> s.sets[n].exclude.live[i] in s.live
  {
    forall i | 0 <= i < |s.sets[n].match_.live| ensures s.sets[n].match_.live[i] in s.live {
      UseMirrored(t, s, n, s.sets[n].match_.live[i]);
    }
    forall i | 0 <= i < |s.sets[n].exclude.live| ensures s.sets[n].exclude.live[i] in s.live {
      UseMirrored(t, s, n, s.sets[n].exclude.live[i]);
    }
  }

  lemma ExplainAgrees(s: Snapshot, set_: Set, k: Client, y: set<Name>)
    requires Agree(s, k.live, y)
    requires forall i :: 0 <= i < |set_.match_.live| ==> set_.match_.live[i] in s.live
    requires forall i :: 0 <= i < |set_.exclude.live| ==> set_.exclude.live[i] in s.live
    ensures Explain(set_, k) == Explain(set_, Seen(k, y))
  {
    FirstLiveAgrees(s, set_.match_.live, k.live, y);
    FirstLiveAgrees(s, set_.exclude.live, k.live, y);
  }

  lemma RowAgrees(t: Tree, s: Snapshot, r: Rule, k: Client, y: set<Name>)
    requires TreeReadable(t) && SnapshotOf(t, s) && Agree(s, k.live, y)
    ensures RowHit(s, r, k) == RowHit(s, r, Seen(k, y))
  {
    if r.set_ in s.sets {
      SetLiveMirrored(t, s, r.set_);
      ExplainAgrees(s, s.sets[r.set_], k, y);
    }
  }

  lemma {:induction false} HitsAgree(t: Tree, s: Snapshot, rules: seq<Rule>, a: Action, k: Client, y: set<Name>)
    requires TreeReadable(t) && SnapshotOf(t, s) && Agree(s, k.live, y)
    ensures FirstHit(s, rules, a, k) == FirstHit(s, rules, a, Seen(k, y))
  {
    if rules != [] {
      var m := |rules| - 1;
      HitsAgree(t, s, rules[..m], a, k, y);
      RowAgrees(t, s, rules[m], k, y);
    }
  }

  /** A profile's rule, as loading leaves it. */
  predicate Loaded(t: Tree, s: Snapshot, r: Rule) {
    && RuleOk(r) && RuleRefers(r, t.sets.Keys, t.lists.Keys + t.live.Keys, t.live.Keys)
    && (!Terminal(r.action) && r.dataset in t.live ==> r.dataset in s.live)
    && (r.action.Write? ==> r.list in s.live)
  }

  lemma ProfileLoaded(t: Tree, s: Snapshot, n: Name, i: nat)
    requires TreeReadable(t) && SnapshotOf(t, s) && n in s.profiles && i < |s.profiles[n].rules|
    ensures Loaded(t, s, s.profiles[n].rules[i])
  {
    var r := s.profiles[n].rules[i];
    assert ProfileOk(s.profiles[n]) && Refers(s.profiles[n], t.sets.Keys, t.lists.Keys + t.live.Keys, t.live.Keys);
    assert RuleNames(r, r.dataset) && (r.action.Write? ==> RuleNames(r, r.list));
    assert ProfileUses(s.profiles[n], r.dataset) && Uses(s.sets, s.profiles, r.dataset);
    assert r.action.Write? ==> ProfileUses(s.profiles[n], r.list) && Uses(s.sets, s.profiles, r.list);
  }

  /** A live dataset a row asks about is mirrored, so the row fires on both or on neither. */
  lemma RowFiresAgrees(t: Tree, s: Snapshot, r: Rule, k: Client, y: set<Name>)
    requires ListsCompiled(t, s.lists) && Agree(s, k.live, y) && Loaded(t, s, r)
    ensures RowFires(s, r, k) == RowFires(s, r, Seen(k, y))
  {
    if !Terminal(r.action) && r.dataset !in t.lists {
      assert s.lists[r.dataset] == Subject(r.dataset) && r.dataset in s.live;
    }
  }

  lemma {:induction false} RowsAgree(t: Tree, s: Snapshot, rules: seq<Rule>, k: Client, y: set<Name>)
    requires ListsCompiled(t, s.lists) && Agree(s, k.live, y)
    requires forall i :: 0 <= i < |rules| ==> Loaded(t, s, rules[i])
    ensures RowEffects(s, rules, k) == RowEffects(s, rules, Seen(k, y))
    ensures BansIn(RowEffects(s, rules, k), s)
  {
    if rules != [] {
      var m := |rules| - 1;
      RowsAgree(t, s, rules[..m], k, y);
      assert Loaded(t, s, rules[m]);
      RowFiresAgrees(t, s, rules[m], k, y);
    }
  }

  lemma OutcomeLoaded(t: Tree, s: Snapshot, n: Name, i: nat)
    requires TreeReadable(t) && SnapshotOf(t, s) && n in s.profiles && i < |s.profiles[n].outcomes|
    ensures var o := s.profiles[n].outcomes[i]; o.verb == "" ==> o.list in s.live
  {
    var p := s.profiles[n];
    var o := p.outcomes[i];
    assert ProfileOk(p) && OutcomeOk(o);
    assert Refers(p, t.sets.Keys, t.lists.Keys + t.live.Keys, t.live.Keys) && OutcomeRefers(o, t.live.Keys);
    assert ProfileUses(p, o.list) && Uses(s.sets, s.profiles, o.list);
  }

  predicate BansIn(e: Effects, s: Snapshot) {
    forall i :: 0 <= i < |e.bans| ==> e.bans[i].dataset in s.live
  }

  lemma {:induction false} OutcomeBans(s: Snapshot, e: Effects, outcomes: seq<Outcome>, v: Event, ip: Option<Addr>, code: string)
    requires BansIn(e, s)
    requires forall i :: 0 <= i < |outcomes| && outcomes[i].verb == "" ==> outcomes[i].list in s.live
    ensures BansIn(OutcomeEffects(e, outcomes, v, ip, code), s)
  {
    if outcomes != [] { OutcomeBans(s, e, outcomes[..|outcomes| - 1], v, ip, code); }
  }

  /** A check asks only about mirrored sets: live data that differ elsewhere give the same answer. And it
      writes only to mirrored sets. */
  lemma MirroredSetsSuffice(t: Tree, s: Snapshot, name: string, raw: string, addr: Option<Addr>, x: set<Name>, y: set<Name>)
    requires TreeReadable(t) && SnapshotOf(t, s) && Agree(s, x, y)
    ensures Answer(Some(s), name, raw, addr, x) == Answer(Some(s), name, raw, addr, y)
    ensures BansIn(Answer(Some(s), name, raw, addr, x).effects, s)
  {
    var n := ProfileKey(name);
    if n in s.profiles && addr.Some? && FirstGap(s, s.profiles[n].rules).None? {
      var p := s.profiles[n];
      var k := ClientOf(s, addr.value, x);
      assert ClientOf(s, addr.value, y) == Seen(k, y);
      HitsAgree(t, s, p.rules, Allow, k, y);
      HitsAgree(t, s, p.rules, Deny, k, y);
      forall i | 0 <= i < |p.rules| ensures Loaded(t, s, p.rules[i]) { ProfileLoaded(t, s, n, i); }
      RowsAgree(t, s, p.rules, k, y);
      forall i | 0 <= i < |p.outcomes| && p.outcomes[i].verb == "" ensures p.outcomes[i].list in s.live {
        OutcomeLoaded(t, s, n, i);
      }
      forall v, code ensures BansIn(OutcomeEffects(RowEffects(s, p.rules, k), p.outcomes, v, Some(k.ip), code), s) {
        OutcomeBans(s, RowEffects(s, p.rules, k), p.outcomes, v, Some(k.ip), code);
      }
    }
  }

  /** Overload outcomes write only to mirrored sets. */
  lemma OverloadWritesMirrored(t: Tree, s: Snapshot, n: Name, addr: Option<Addr>, fill: int, shed: bool, reason: string)
    requires TreeReadable(t) && SnapshotOf(t, s) && n in s.profiles
    ensures BansIn(Overloaded(s.profiles[n], addr, fill, shed, reason), s)
  {
    var p := s.profiles[n];
    forall i | 0 <= i < |p.outcomes| && p.outcomes[i].verb == "" ensures p.outcomes[i].list in s.live {
      OutcomeLoaded(t, s, n, i);
    }
    OutcomeBans(s, NOTHING, p.outcomes, Queue(fill, shed), if addr.Some? then Some(Unmap(addr.value)) else None, reason);
  }
}
