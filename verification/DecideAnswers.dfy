/** What an answer says: when it is an error, which row speaks in it and how, what it discloses, and which requests and
    writes go with it. */
module DecideAnswers {
  import opened Bits
  import opened Netip
  import opened Netset
  import opened Store
  import opened Decide
  import opened DecideLaws

  // ---- names ----

  predicate Capital(c: char) {
    'A' <= c <= 'Z'
  }

  /** A name without capitals is its own key, no name is the default's, and a name and its key have the same key. */
  lemma KeyIs(name: string)
    ensures ProfileKey("") == DEFAULT_NAME
    ensures name != "" && (forall i :: 0 <= i < |name| ==> !Capital(name[i])) ==> ProfileKey(name) == Name(name)
    ensures forall i :: 0 <= i < |ProfileKey(name).text| ==> !Capital(ProfileKey(name).text[i])
    ensures ProfileKey(ProfileKey(name).text) == ProfileKey(name)
  {
    if forall i :: 0 <= i < |name| ==> !Capital(name[i]) { assert Lower(name) == name; }
    assert forall c :: !Capital(LowerChar(c)) && LowerChar(LowerChar(c)) == LowerChar(c);
    assert Lower(Lower(name)) == Lower(name);
  }

  /** Names that differ only in case have the same key. */
  lemma KeyIgnoresCase(a: string, b: string)
    requires |a| == |b|
    requires forall i :: 0 <= i < |a| ==> a[i] == b[i] || (Capital(a[i]) && b[i] as int == a[i] as int + 32)
    ensures ProfileKey(a) == ProfileKey(b)
  {
    forall i | 0 <= i < |a| ensures LowerChar(a[i]) == LowerChar(b[i]) {
      assert 'a' as int == 'A' as int + 32;
    }
    assert Lower(a) == Lower(b);
  }

  // ---- errors ----

  predicate Unknown(s: Option<Snapshot>, name: string) {
    s.None? || ProfileKey(name) !in s.value.profiles
  }

  /** The name as an error shows it. */
  function ShownName(name: string): string {
    if name == "" then "default" else name
  }

  predicate HasGap(s: Snapshot, rules: seq<Rule>) {
    exists i :: 0 <= i < |rules| && RowGap(s, rules[i]).Some?
  }

  /** An answer is an error if and only if the profile is unknown, the address does not parse, or a row's set, countries or
      list are missing; each with its code, and none with a request, a write or a reason. */
  lemma FaultIff(s: Option<Snapshot>, name: string, raw: string, addr: Option<Addr>, live: set<Name>)
    ensures var r := Answer(s, name, raw, addr, live);
            var fails := Unknown(s, name) || addr.None? || HasGap(s.value, s.value.profiles[ProfileKey(name)].rules);
            && (r.face.verdict == Fault <==> fails)
            && (fails ==> r.effects == Effects([], [], []) && r.face.response == "blocked" && r.face.reason.NoReason? && |r.face.findings| == 1)
  {
    if !Unknown(s, name) && addr.Some? {
      var p := s.value.profiles[ProfileKey(name)];
      FirstGapIs(s.value, p.rules);
      if FirstGap(s.value, p.rules).None? { VerdictIs(s.value, p, ClientOf(s.value, addr.value, live)); }
    }
  }

  /** Which error it is: an unknown profile comes before an address that does not parse, and that before a gap. */
  lemma FaultSays(s: Option<Snapshot>, name: string, raw: string, addr: Option<Addr>, live: set<Name>)
    ensures var r := Answer(s, name, raw, addr, live);
            var f := if |r.face.findings| == 1 then r.face.findings[0] else Finding("", High, "", None);
            && (Unknown(s, name) ==>
                  r.face.code == "IP_UNKNOWN_PROFILE" && r.face.text == ShownName(name) &&
                  f == Finding("ip-unknown-profile", Critical, ShownName(name), None))
            && (!Unknown(s, name) && addr.None? ==>
                  r.face.code == "IP_MALFORMED" && r.face.text == raw && f == Finding("ip-malformed-address", High, raw, None))
            && (!Unknown(s, name) && addr.Some? && HasGap(s.value, s.value.profiles[ProfileKey(name)].rules) ==>
                  r.face.code == "IP_MISSING_SET" && f.code == "ip-missing-set" && f.severity == Critical)
  {
    if !Unknown(s, name) && addr.Some? { FirstGapIs(s.value, s.value.profiles[ProfileKey(name)].rules); }
  }

  // ---- what a set's hit is ----

  /** A set that matches says through what: a table of a list or a system if one holds the address, else a live set, else the
      client's country; an inverse set says only that it is one. */
  lemma HitSays(s: Set, k: Client)
    requires Explain(s, k).Some?
    ensures var h := Explain(s, k).value;
            var table := exists i :: 0 <= i < |s.match_.sources| && TableLocate(s.match_.sources[i].table, k.ip).Some?;
            && (s.inverse ==> h.kind.KindInverse? && h.name == s.name)
            && (!s.inverse && table ==> exists i: nat :: FirstHolding(s.match_.sources, i, k.ip, h))
            && (!s.inverse && !table && InLive(s.match_, k) ==> h.kind.KindLive? && h.name in k.live && h.name in s.match_.live)
            && (!s.inverse && !table && !InLive(s.match_, k) ==> h.kind.KindCountry? && k.country == Some(h.name))
  {
    FirstSourceIs(s.match_.sources, k.ip);
    FirstLiveIs(s.match_.live, k.live);
    FirstLiveNames(s.match_.live, k.live);
  }

  lemma {:induction false} FirstLiveNames(live: seq<Name>, held: set<Name>)
    ensures FirstLive(live, held).Some? ==>
              FirstLive(live, held).value.name in live && FirstLive(live, held).value.name in held
  {
    if live != [] { FirstLiveNames(live[1..], held); }
  }

  // ---- what a deny discloses ----

  /** The hit is a list's and its interval is the block of the prefix. */
  predicate HitsBlock(h: Hit, p: Prefix) {
    h.kind.KindList? && h.span.Some? && IsBlockOf(h.span.value, p)
  }

  /** Something is disclosed exactly when the hit is a country, a system with a 32-bit number, or a list whose interval is one
      block; and then it is that country, that system, or that block: an address if it has the full length, else a
      network. */
  lemma ReasonIs(h: Hit, ip: Addr)
    ensures var r := PublicReason(h, ip);
            && (h.kind.KindCountry? ==> r == Country(h.name))
            && (forall n: nat :: h.kind.KindAsn? && h.name == AsnName(n) ==> r == if n < TWO32 then System(n) else NoReason)
            && (forall p :: HitsBlock(h, p) ==> r == if p.bits == BitLen(ip) then Address(p.addr) else Network(p))
            && (h.kind.KindList? && (forall p :: !HitsBlock(h, p)) ==> r.NoReason?)
            && (h.kind.KindLive? || h.kind.KindInverse? ==> r.NoReason?)
  {
    forall n: nat | h.kind.KindAsn? && h.name == AsnName(n)
      ensures PublicReason(h, ip) == if n < TWO32 then System(n) else NoReason {
      AsnSurvives(n);
    }
    forall p | HitsBlock(h, p)
      ensures PublicReason(h, ip) == if p.bits == BitLen(ip) then Address(p.addr) else Network(p) {
      PrefixOfIs(h.span.value, p);
    }
    if h.kind.KindList? && h.span.Some? && PrefixOf(h.span.value).Some? {
      assert HitsBlock(h, PrefixOf(h.span.value).value);
    }
  }

  // ---- the row that speaks ----

  /** No row of the action has a set that holds the address. */
  predicate NoneMatched(s: Snapshot, rules: seq<Rule>, a: Action, k: Client) {
    !AnyMatched(s, rules, a, k)
  }

  lemma TopmostIsFound(s: Snapshot, rules: seq<Rule>, i: nat, a: Action, k: Client)
    requires Topmost(s, rules, i, a, k)
    ensures FirstHit(s, rules, a, k).Some? && FirstHit(s, rules, a, k).value.row == i &&
            FirstHit(s, rules, a, k).value.rule == rules[i] &&
            Some(FirstHit(s, rules, a, k).value.hit) == Explain(s.sets[rules[i].set_], k)
  {
    FirstHitIs(s, rules, a, k);
    var f := FirstHit(s, rules, a, k).value;
    ExplainIsMembership(s.sets[f.rule.set_], k);
  }

  /** The topmost matching deny row speaks where no allow row matches: its code or the kind's, its response or the usual one,
      its country, its finding, and the reason of the hit. */
  lemma DenySpeaks(s: Snapshot, p: Profile, k: Client, i: nat)
    requires NoneMatched(s, p.rules, Allow, k) && Topmost(s, p.rules, i, Deny, k)
    ensures var r := Decided(s, p, k);
            var rule := p.rules[i];
            var e := Explain(s.sets[rule.set_], k);
            e.Some? &&
            var h := e.value;
            var country := h.kind.KindCountry?;
            && r.face.verdict == Block
            && r.face.code == (if rule.code != "" then rule.code else if country then "IP_GEO" else "IP_LIST")
            && r.face.text == (if country then h.name.text else "")
            && r.face.response == (if rule.response != "" then rule.response else "blocked")
            && r.face.findings == [Finding(if country then "ip-geo" else "ip-denylist", High, h.name.text, Some(k.ip))]
            && r.face.reason == PublicReason(h, k.ip)
            && r.engine == Engine(k.country, Some(Mark(i + 1, rule.set_, h.kind, h.name)))
  {
    FirstHitIs(s, p.rules, Allow, k);
    TopmostIsFound(s, p.rules, i, Deny, k);
  }

  /** The topmost matching allow row speaks whatever the deny rows say. */
  lemma AllowSpeaks(s: Snapshot, p: Profile, k: Client, i: nat)
    requires Topmost(s, p.rules, i, Allow, k)
    ensures var r := Decided(s, p, k);
            var rule := p.rules[i];
            var e := Explain(s.sets[rule.set_], k);
            && e.Some?
            && r.face == Face(Pass, if rule.code != "" then rule.code else "IP_ALLOWLIST", "", "", [], NoReason)
            && r.engine == Engine(k.country, Some(Mark(i + 1, rule.set_, e.value.kind, e.value.name)))
  {
    TopmostIsFound(s, p.rules, i, Allow, k);
  }

  /** The default speaks where no row matches. */
  lemma DefaultSpeaks(s: Snapshot, p: Profile, k: Client)
    requires NoneMatched(s, p.rules, Allow, k) && NoneMatched(s, p.rules, Deny, k)
    ensures var r := Decided(s, p, k);
            && r.face == (if p.fallback.Deny?
                          then Face(Block, if p.fallbackCode != "" then p.fallbackCode else "IP_LIST", "", "blocked",
                                    [Finding("ip-denylist", High, "default", None)], NoReason)
                          else Face(Pass, "IP_OK", "", "", [], NoReason))
            && r.engine == Engine(k.country, None)
  {
    FirstHitIs(s, p.rules, Allow, k);
    FirstHitIs(s, p.rules, Deny, k);
  }

  // ---- what goes with an answer ----

  /** Where the address ended up, by its membership in the rows' sets. */
  function Side(s: Snapshot, p: Profile, k: Client): On {
    if AnyMatched(s, p.rules, Allow, k) then White
    else if AnyMatched(s, p.rules, Deny, k) then Black
    else Neither
  }

  /** The outcome does something under this name: a request's verb, or the list it writes to where there is an address. */
  predicate ActsAs(o: Outcome, v: Event, ip: Option<Addr>, name: string) {
    Selects(v, o) && if o.verb != "" then name == o.verb else ip.Some? && name == o.list.text
  }

  /** The names of what fired: one for each request and write, and exactly those of the outcomes that act. */
  lemma {:induction false} FiredAre(outcomes: seq<Outcome>, v: Event, ip: Option<Addr>, code: string)
    ensures var r := OutcomeEffects(NOTHING, outcomes, v, ip, code);
            && |r.fired| == |r.asks| + |r.bans|
            && forall n :: n in r.fired <==> exists i :: 0 <= i < |outcomes| && ActsAs(outcomes[i], v, ip, n)
  {
    if outcomes != [] {
      var last := |outcomes| - 1;
      FiredAre(outcomes[..last], v, ip, code);
      forall n ensures (exists i :: 0 <= i < |outcomes| && ActsAs(outcomes[i], v, ip, n)) <==>
                       (ActsAs(outcomes[last], v, ip, n) || exists i :: 0 <= i < last && ActsAs(outcomes[..last][i], v, ip, n)) {
        if i :| 0 <= i < |outcomes| && ActsAs(outcomes[i], v, ip, n) && i != last {
          assert outcomes[..last][i] == outcomes[i];
        }
      }
    }
  }

  function Joined(x: Effects, y: Effects): Effects {
    Effects(x.asks + y.asks, x.bans + y.bans, x.fired + y.fired)
  }

  /** Outcomes act in their order, and after whatever went before. */
  lemma {:induction false} OutcomesInOrder(e: Effects, a: seq<Outcome>, b: seq<Outcome>, v: Event, ip: Option<Addr>, code: string)
    ensures OutcomeEffects(e, a + b, v, ip, code) ==
            Joined(OutcomeEffects(e, a, v, ip, code), OutcomeEffects(NOTHING, b, v, ip, code))
  {
    if b == [] {
      assert a + b == a;
    } else {
      var n := |b| - 1;
      assert (a + b)[..|a| + n] == a + b[..n];
      OutcomesInOrder(e, a, b[..n], v, ip, code);
    }
  }

  predicate OutcomeAsked(p: Profile, on: On, ask: Ask) {
    exists i :: 0 <= i < |p.outcomes| && p.outcomes[i].on == on && p.outcomes[i].verb != "" && p.outcomes[i].ask == ask
  }

  predicate OutcomeBanned(p: Profile, on: On, ip: Addr, code: string, ban: Ban) {
    exists i :: 0 <= i < |p.outcomes| && p.outcomes[i].on == on && p.outcomes[i].verb == "" &&
      ban == Ban(p.outcomes[i].list, p.outcomes[i].write, ip, p.outcomes[i].ttl,
                 if p.outcomes[i].code != "" then p.outcomes[i].code else code)
  }

  /** An answer that is no error carries exactly the requests and writes of the side rows that fire, and of the outcomes for
      the side on which the address ended up: white if an allow set holds it, black if only a deny set does, else
      neither. */
  lemma {:induction false} EffectsAre(s: Snapshot, name: string, raw: string, addr: Addr, live: set<Name>)
    requires ProfileKey(name) in s.profiles && !HasGap(s, s.profiles[ProfileKey(name)].rules)
    ensures var p := s.profiles[ProfileKey(name)];
            var k := ClientOf(s, addr, live);
            var r := Answer(Some(s), name, raw, Some(addr), live);
            var on := Side(s, p, k);
            && (forall a :: a in r.effects.asks <==> RowAsked(s, p.rules, k, a) || OutcomeAsked(p, on, a))
            && (forall b :: b in r.effects.bans <==> RowBanned(s, p.rules, k, b) || OutcomeBanned(p, on, k.ip, r.face.code, b))
  {
    var p := s.profiles[ProfileKey(name)];
    var k := ClientOf(s, addr, live);
    var on := Side(s, p, k);
    var code := Decided(s, p, k).face.code;
    FirstGapIs(s, p.rules);
    FirstHitIs(s, p.rules, Allow, k);
    FirstHitIs(s, p.rules, Deny, k);
    RowsAre(s, p.rules, k);
    OutcomesAre(RowEffects(s, p.rules, k), p.outcomes, Stood(on), Some(k.ip), code);
    forall a ensures Asked(p.outcomes, Stood(on), a) <==> OutcomeAsked(p, on, a) {
    }
    forall b ensures Banned(p.outcomes, Stood(on), Some(k.ip), code, b) <==> OutcomeBanned(p, on, k.ip, code, b) {
    }
  }

  /** The rows' requests and writes come first, those of the outcomes after them; and an answer names what the outcomes for its
      side do, one name for each of their requests and writes. */
  lemma {:induction false} RowsThenOutcomes(s: Snapshot, name: string, raw: string, addr: Addr, live: set<Name>)
    requires ProfileKey(name) in s.profiles && !HasGap(s, s.profiles[ProfileKey(name)].rules)
    ensures var p := s.profiles[ProfileKey(name)];
            var k := ClientOf(s, addr, live);
            var r := Answer(Some(s), name, raw, Some(addr), live);
            var rows := RowEffects(s, p.rules, k);
            && rows.asks <= r.effects.asks && rows.bans <= r.effects.bans
            && |r.effects.fired| == |r.effects.asks| - |rows.asks| + |r.effects.bans| - |rows.bans|
            && forall n :: n in r.effects.fired <==>
                 exists i :: 0 <= i < |p.outcomes| && ActsAs(p.outcomes[i], Stood(Side(s, p, k)), Some(k.ip), n)
  {
    var p := s.profiles[ProfileKey(name)];
    var k := ClientOf(s, addr, live);
    var v := Stood(Side(s, p, k));
    var code := Decided(s, p, k).face.code;
    FirstGapIs(s, p.rules);
    FirstHitIs(s, p.rules, Allow, k);
    FirstHitIs(s, p.rules, Deny, k);
    RowsAre(s, p.rules, k);
    OutcomesInOrder(RowEffects(s, p.rules, k), [], p.outcomes, v, Some(k.ip), code);
    assert [] + p.outcomes == p.outcomes;
    FiredAre(p.outcomes, v, Some(k.ip), code);
  }

  /** Below the top a threshold is reached at its own fill and not before; at the top only a dropped request fires; and a
      dropped request fires whatever the threshold. */
  lemma FiresFrom(at: int, fill: int)
    ensures at < 100 ==> Fires(at, at, false) && !Fires(at, at - 1, false)
    ensures at < 100 && fill >= at ==> Fires(at, fill, false)
    ensures at < 100 && fill < at ==> !Fires(at, fill, false)
    ensures at >= 100 ==> !Fires(at, fill, false)
    ensures Fires(at, fill, true)
  {
  }

  /** The overload requests and writes: those of the overload outcomes whose threshold is reached, all of them when the request
      is dropped, and writes only for an address that parses. */
  lemma OverloadIs(p: Profile, addr: Option<Addr>, fill: int, shed: bool, reason: string)
    ensures var e := Overloaded(p, addr, fill, shed, reason);
            && (forall a :: a in e.asks <==>
                  exists i :: 0 <= i < |p.outcomes| && p.outcomes[i].on.Overload? &&
                    (shed || (p.outcomes[i].at < 100 && fill >= p.outcomes[i].at)) &&
                    p.outcomes[i].verb != "" && p.outcomes[i].ask == a)
            && (forall b :: b in e.bans <==>
                  addr.Some? &&
                  (exists i :: 0 <= i < |p.outcomes| && p.outcomes[i].on.Overload? &&
                     (shed || (p.outcomes[i].at < 100 && fill >= p.outcomes[i].at)) && p.outcomes[i].verb == "" &&
                     b == Ban(p.outcomes[i].list, p.outcomes[i].write, Unmap(addr.value), p.outcomes[i].ttl,
                              if p.outcomes[i].code != "" then p.outcomes[i].code else reason)))
  {
    var v, ip := Queue(fill, shed), if addr.Some? then Some(Unmap(addr.value)) else None;
    OutcomesAre(NOTHING, p.outcomes, v, ip, reason);
    forall a ensures a in Overloaded(p, addr, fill, shed, reason).asks <==> Asked(p.outcomes, v, a) {
      assert a !in NOTHING.asks;
    }
    forall b ensures b in Overloaded(p, addr, fill, shed, reason).bans <==> Banned(p.outcomes, v, ip, reason, b) {
      assert b !in NOTHING.bans;
    }
  }
}
