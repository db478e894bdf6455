/** The decision of internal/decide/decide.go: allow rows, then deny rows, then the default; then the
    requests and the writes that go with the answer. */
module Decide {
  import opened Bits
  import opened Netip
  import opened Netset
  import opened Store

  datatype Verdict = Pass | Block | Fault

  datatype Severity = High | Critical

  datatype Finding = Finding(code: string, severity: Severity, rule: string, evidence: Option<Addr>)

  /** What a deny tells the client: the scope together with its subject. */
  datatype Reason = NoReason | Country(name: Name) | System(number: nat) | Address(addr: Addr) | Network(net: Prefix)

  datatype Ban = Ban(dataset: Name, write: string, value: Addr, ttl: int, reason: string)

  /** The part of an answer that the verdict settles. */
  datatype Face = Face(
    verdict: Verdict, code: string, text: string, response: string, findings: seq<Finding>, reason: Reason)

  /** The part of an answer that side rows and outcomes add. */
  datatype Effects = Effects(asks: seq<Ask>, bans: seq<Ban>, fired: seq<string>)

  datatype Engine = Engine(geo: Option<Name>, mark: Option<Mark>)

  datatype Mark = Mark(row: nat, set_: Name, kind: Kind, list: Name)

  datatype Result = Result(face: Face, effects: Effects, engine: Engine)

  const OK_CODE := "IP_OK"
  const MALFORMED_CODE := "IP_MALFORMED"
  const ALLOW_CODE := "IP_ALLOWLIST"
  const LIST_CODE := "IP_LIST"
  const GEO_CODE := "IP_GEO"
  const UNKNOWN_CODE := "IP_UNKNOWN_PROFILE"
  const MISSING_CODE := "IP_MISSING_SET"
  const BLOCKED := "blocked"
  const DENYLIST_FINDING := "ip-denylist"
  const GEO_FINDING := "ip-geo"
  const UNKNOWN_FINDING := "ip-unknown-profile"
  const MALFORMED_FINDING := "ip-malformed-address"
  const MISSING_FINDING := "ip-missing-set"

  const NOTHING := Effects([], [], [])

  function Coded(explicit: string, other: string): string {
    if explicit != "" then explicit else other
  }

  function LowerChar(c: char): char {
    if 'A' <= c <= 'Z' then c - 'A' + 'a' else c
  }

  function Lower(s: string): string {
    seq(|s|, i requires 0 <= i < |s| => LowerChar(s[i]))
  }

  /** The name a route gives, as a key: none is the default, and case does not matter. */
  function ProfileKey(name: string): Name {
    if name == "" then DEFAULT_NAME else Name(Lower(name))
  }

  // ---- the public reason ----

  predicate IsDigit(c: char) {
    '0' <= c <= '9'
  }

  function DecimalValue(s: string): Option<nat> {
    if s == "" then Some(0)
    else
      var front := DecimalValue(s[..|s| - 1]);
      var c := s[|s| - 1];
      if front.Some? && IsDigit(c) then Some(10 * front.value + (c as int - '0' as int)) else None
  }

  /** `strconv.ParseUint(s, 10, 32)`. */
  function ParseUint32(s: string): Option<nat> {
    var v := DecimalValue(s);
    if s != "" && v.Some? && v.value < TWO32 then v else None
  }

  lemma DigitValue(d: nat)
    requires d < 10
    ensures IsDigit(Digit(d)) && Digit(d) as int - '0' as int == d
  {
    assert d == 0 || d == 1 || d == 2 || d == 3 || d == 4 || d == 5 || d == 6 || d == 7 || d == 8 || d == 9;
  }

  lemma {:induction false} DecimalReads(n: nat)
    ensures Decimal(n) != "" && DecimalValue(Decimal(n)) == Some(n)
  {
    DigitValue(n % 10);
    if n < 10 {
      assert Decimal(n)[..0] == "";
    } else {
      DecimalReads(n / 10);
      assert Decimal(n)[..|Decimal(n)| - 1] == Decimal(n / 10);
    }
  }

  /** A system's number survives the way through its table's name. */
  lemma AsnSurvives(n: nat)
    ensures ParseUint32(AsnName(n).text) == if n < TWO32 then Some(n) else None
  {
    DecimalReads(n);
  }

  ghost function PublicReason(hit: Hit, ip: Addr): Reason {
    match hit.kind
    case KindCountry => Country(hit.name)
    case KindAsn =>
      var n := ParseUint32(hit.name.text);
      if n.Some? then System(n.value) else NoReason
    case KindList =>
      var net := if hit.span.Some? then PrefixOf(hit.span.value) else None;
      if net.None? then NoReason
      else if net.value.bits == BitLen(ip) then Address(net.value.addr)
      else Network(net.value)
    case KindLive => NoReason
    case KindInverse => NoReason
  }

  /** `publicReason`. */
  method FindReason(hit: Hit, ip: Addr) returns (r: Reason)
    ensures r == PublicReason(hit, ip)
  {
    match hit.kind {
      case KindCountry => return Country(hit.name);
      case KindAsn =>
        var n := ParseUint32(hit.name.text);
        return if n.Some? then System(n.value) else NoReason;
      case KindList =>
        if hit.span.None? {
          return NoReason;
        }
        var net := IntervalPrefix(hit.span.value);
        if net.None? {
          return NoReason;
        }
        return if net.value.bits == BitLen(ip) then Address(net.value.addr) else Network(net.value);
      case KindLive => return NoReason;
      case KindInverse => return NoReason;
    }
  }

  // ---- the verdict ----

  function DenyCode(kind: Kind): string {
    if kind.KindCountry? then GEO_CODE else LIST_CODE
  }

  function DenyFinding(hit: Hit, ip: Addr): Finding {
    Finding(if hit.kind.KindCountry? then GEO_FINDING else DENYLIST_FINDING, High, hit.name.text, Some(ip))
  }

  /** The answer of an allow row. */
  function Allowed(rule: Rule): Face {
    Face(Pass, Coded(rule.code, ALLOW_CODE), "", "", [], NoReason)
  }

  /** The answer of a deny row that matched through `hit`. */
  ghost function Denied(rule: Rule, hit: Hit, ip: Addr): Face {
    Face(Block, Coded(rule.code, DenyCode(hit.kind)),
         if hit.kind.KindCountry? then hit.name.text else "",
         Coded(rule.response, BLOCKED), [DenyFinding(hit, ip)], PublicReason(hit, ip))
  }

  /** The answer when no row matched. */
  function Fallback(p: Profile): Face {
    if p.fallback.Deny? then
      Face(Block, Coded(p.fallbackCode, LIST_CODE), "", BLOCKED,
           [Finding(DENYLIST_FINDING, High, "default", None)], NoReason)
    else Face(Pass, OK_CODE, "", "", [], NoReason)
  }

  function Failed(code: string, text: string, finding: string, severity: Severity, rule: string): Result {
    Result(Face(Fault, code, text, BLOCKED, [Finding(finding, severity, rule, None)], NoReason),
           NOTHING, Engine(None, None))
  }

  /** How a row's set matches; a row whose set is not there never does. */
  function RowHit(s: Snapshot, r: Rule, k: Client): Option<Hit> {
    if r.set_ in s.sets then Explain(s.sets[r.set_], k) else None
  }

  datatype Found = Found(row: nat, rule: Rule, hit: Hit)

  /** The topmost row with the action whose set matches. */
  function FirstHit(s: Snapshot, rules: seq<Rule>, a: Action, k: Client): Option<Found> {
    if rules == [] then None
    else
      var n := |rules| - 1;
      var above := FirstHit(s, rules[..n], a, k);
      if above.Some? then above
      else if rules[n].action == a && RowHit(s, rules[n], k).Some?
      then Some(Found(n, rules[n], RowHit(s, rules[n], k).value))
      else None
  }

  // ---- what goes with the answer ----

  predicate RowFires(s: Snapshot, r: Rule, k: Client) {
    !Terminal(r.action) && (r.dataset in s.lists && ListContains(s.lists[r.dataset], k)) != r.negated
  }

  function RowBan(r: Rule, ip: Addr): Ban {
    Ban(r.list, r.write, ip, r.ttl, Coded(r.code, LIST_CODE))
  }

  function AddRow(e: Effects, s: Snapshot, r: Rule, k: Client): Effects {
    if !RowFires(s, r, k) then e
    else if r.action.Request? then e.(asks := e.asks + [r.ask])
    else e.(bans := e.bans + [RowBan(r, k.ip)])
  }

  /** The requests and writes of the side rows, in row order. */
  function RowEffects(s: Snapshot, rules: seq<Rule>, k: Client): Effects {
    if rules == [] then NOTHING
    else AddRow(RowEffects(s, rules[..|rules| - 1], k), s, rules[|rules| - 1], k)
  }

  /** What an outcome waits for: where the address ended up, or the state of the queue. */
  datatype Event = Stood(on: On) | Queue(fill: int, shed: bool)

  /** `overload.Fires`. */
  predicate Fires(at: int, fill: int, shed: bool) {
    shed || (at < 100 && fill >= at)
  }

  predicate Selects(v: Event, o: Outcome) {
    match v
    case Stood(on) => o.on == on
    case Queue(fill, shed) => o.on.Overload? && Fires(o.at, fill, shed)
  }

  function AddOutcome(e: Effects, o: Outcome, v: Event, ip: Option<Addr>, code: string): Effects {
    if !Selects(v, o) then e
    else if o.verb != "" then Effects(e.asks + [o.ask], e.bans, e.fired + [o.verb])
    else if ip.None? then e
    else Effects(e.asks, e.bans + [Ban(o.list, o.write, ip.value, o.ttl, Coded(o.code, code))],
                 e.fired + [o.list.text])
  }

  function OutcomeEffects(e: Effects, outcomes: seq<Outcome>, v: Event, ip: Option<Addr>, code: string): Effects {
    if outcomes == [] then e
    else
      var n := |outcomes| - 1;
      AddOutcome(OutcomeEffects(e, outcomes[..n], v, ip, code), outcomes[n], v, ip, code)
  }

  // ---- gaps ----

  datatype Gap = Gap(name: Name, kind: string)

  predicate UsesCountries(s: Set) {
    s.match_.countries != [] || s.exclude.countries != []
  }

  function RowGap(s: Snapshot, r: Rule): Option<Gap> {
    if r.set_ != NO_NAME && r.set_ !in s.sets then Some(Gap(r.set_, "set"))
    else if r.set_ != NO_NAME && UsesCountries(s.sets[r.set_]) && s.geo == [] then Some(Gap(r.set_, "geo"))
    else if r.dataset != NO_NAME && r.dataset !in s.lists then Some(Gap(r.dataset, "list"))
    else None
  }

  /** The first row whose set or list cannot be used. */
  function FirstGap(s: Snapshot, rules: seq<Rule>): Option<Gap> {
    if rules == [] then None
    else
      var n := |rules| - 1;
      var above := FirstGap(s, rules[..n]);
      if above.Some? then above else RowGap(s, rules[n])
  }

  // ---- the whole decision ----

  ghost function Ruling(s: Snapshot, p: Profile, k: Client): Face {
    var allow := FirstHit(s, p.rules, Allow, k);
    var deny := FirstHit(s, p.rules, Deny, k);
    if allow.Some? then Allowed(allow.value.rule)
    else if deny.Some? then Denied(deny.value.rule, deny.value.hit, k.ip)
    else Fallback(p)
  }

  function Marked(f: Found): Mark {
    Mark(f.row + 1, f.rule.set_, f.hit.kind, f.hit.name)
  }

  ghost function Decided(s: Snapshot, p: Profile, k: Client): Result {
    var allow := FirstHit(s, p.rules, Allow, k);
    var deny := FirstHit(s, p.rules, Deny, k);
    var on := if allow.Some? then White else if deny.Some? then Black else Neither;
    var face := Ruling(s, p, k);
    Result(face,
           OutcomeEffects(RowEffects(s, p.rules, k), p.outcomes, Stood(on), Some(k.ip), face.code),
           Engine(k.country, if allow.Some? then Some(Marked(allow.value))
                             else if deny.Some? then Some(Marked(deny.value)) else None))
  }

  function ClientOf(s: Snapshot, addr: Addr, live: set<Name>): Client {
    Client(Unmap(addr), LookupGeo(s.geo, Unmap(addr)), live)
  }

  /** The answer to one check. `live` is the live sets that hold the address while it lasts. */
  ghost function Answer(s: Option<Snapshot>, name: string, raw: string, addr: Option<Addr>, live: set<Name>): Result {
    if s.None? || ProfileKey(name) !in s.value.profiles then
      var shown := if name == "" then DEFAULT_NAME.text else name;
      Failed(UNKNOWN_CODE, shown, UNKNOWN_FINDING, Critical, shown)
    else if addr.None? then Failed(MALFORMED_CODE, raw, MALFORMED_FINDING, High, raw)
    else
      var p := s.value.profiles[ProfileKey(name)];
      var gap := FirstGap(s.value, p.rules);
      if gap.Some? then
        Failed(MISSING_CODE, gap.value.name.text, MISSING_FINDING, Critical, gap.value.kind + ":" + gap.value.name.text)
      else Decided(s.value, p, ClientOf(s.value, addr.value, live))
  }

  // ---- the loops ----

  lemma {:induction false} FirstHitStays(s: Snapshot, rules: seq<Rule>, a: Action, k: Client, i: nat)
    requires i <= |rules| && FirstHit(s, rules[..i], a, k).Some?
    ensures FirstHit(s, rules, a, k) == FirstHit(s, rules[..i], a, k)
    decreases |rules|
  {
    if i == |rules| {
      assert rules[..i] == rules;
    } else {
      var n := |rules| - 1;
      assert rules[..n][..i] == rules[..i];
      FirstHitStays(s, rules[..n], a, k, i);
    }
  }

  method FirstMatch(s: Snapshot, rules: seq<Rule>, a: Action, k: Client) returns (f: Option<Found>)
    ensures f == FirstHit(s, rules, a, k)
  {
    for i := 0 to |rules|
      invariant FirstHit(s, rules[..i], a, k).None?
    {
      assert rules[..i + 1][..i] == rules[..i];
      if rules[i].action != a {
        continue;
      }
      var hit := RowHit(s, rules[i], k);
      if hit.Some? {
        FirstHitStays(s, rules, a, k, i + 1);
        return Some(Found(i, rules[i], hit.value));
      }
    }
    assert rules[..|rules|] == rules;
    return None;
  }

  lemma {:induction false} FirstGapStays(s: Snapshot, rules: seq<Rule>, i: nat)
    requires i <= |rules| && FirstGap(s, rules[..i]).Some?
    ensures FirstGap(s, rules) == FirstGap(s, rules[..i])
    decreases |rules|
  {
    if i == |rules| {
      assert rules[..i] == rules;
    } else {
      var n := |rules| - 1;
      assert rules[..n][..i] == rules[..i];
      FirstGapStays(s, rules[..n], i);
    }
  }

  /** `missing`. */
  method FindGap(s: Snapshot, rules: seq<Rule>) returns (g: Option<Gap>)
    ensures g == FirstGap(s, rules)
  {
    for i := 0 to |rules|
      invariant FirstGap(s, rules[..i]).None?
    {
      var rule := rules[i];
      assert rules[..i + 1][..i] == rules[..i];
      if RowGap(s, rule).Some? {
        FirstGapStays(s, rules, i + 1);
      }
      if rule.set_ != NO_NAME {
        if rule.set_ !in s.sets {
          return Some(Gap(rule.set_, "set"));
        }
        if UsesCountries(s.sets[rule.set_]) && s.geo == [] {
          return Some(Gap(rule.set_, "geo"));
        }
      }
      if rule.dataset != NO_NAME && rule.dataset !in s.lists {
        return Some(Gap(rule.dataset, "list"));
      }
    }
    assert rules[..|rules|] == rules;
    return None;
  }

  method FireRows(s: Snapshot, rules: seq<Rule>, k: Client) returns (e: Effects)
    ensures e == RowEffects(s, rules, k)
  {
    e := NOTHING;
    for i := 0 to |rules|
      invariant e == RowEffects(s, rules[..i], k)
    {
      var rule := rules[i];
      assert rules[..i + 1][..i] == rules[..i];
      if Terminal(rule.action) {
        continue;
      }
      if (rule.dataset in s.lists && ListContains(s.lists[rule.dataset], k)) == rule.negated {
        continue;
      }
      if rule.action.Request? {
        e := e.(asks := e.asks + [rule.ask]);
        continue;
      }
      e := e.(bans := e.bans + [Ban(rule.list, rule.write, k.ip, rule.ttl, Coded(rule.code, LIST_CODE))]);
    }
    assert rules[..|rules|] == rules;
  }

  method FireOutcomes(start: Effects, outcomes: seq<Outcome>, v: Event, ip: Option<Addr>, code: string)
    returns (e: Effects)
    ensures e == OutcomeEffects(start, outcomes, v, ip, code)
  {
    e := start;
    for i := 0 to |outcomes|
      invariant e == OutcomeEffects(start, outcomes[..i], v, ip, code)
    {
      var o := outcomes[i];
      assert outcomes[..i + 1][..i] == outcomes[..i];
      if !Selects(v, o) {
        continue;
      }
      if o.verb != "" {
        e := Effects(e.asks + [o.ask], e.bans, e.fired + [o.verb]);
        continue;
      }
      if ip.None? {
        continue;
      }
      e := Effects(e.asks, e.bans + [Ban(o.list, o.write, ip.value, o.ttl, Coded(o.code, code))],
                   e.fired + [o.list.text]);
    }
    assert outcomes[..|outcomes|] == outcomes;
  }

  /** `terminal`, for an allow or a deny row. */
  method Conclude(f: Found, ip: Addr) returns (face: Face)
    ensures face == if f.rule.action.Deny? then Denied(f.rule, f.hit, ip) else Allowed(f.rule)
  {
    if !f.rule.action.Deny? {
      return Allowed(f.rule);
    }
    var reason := FindReason(f.hit, ip);
    face := Face(Block, Coded(f.rule.code, DenyCode(f.hit.kind)), "", Coded(f.rule.response, BLOCKED),
                 [DenyFinding(f.hit, ip)], reason);
    if f.hit.kind.KindCountry? {
      face := face.(text := f.hit.name.text);
    }
  }

  /** `Check`. */
  method Check(s: Option<Snapshot>, name: string, raw: string, addr: Option<Addr>, live: set<Name>) returns (r: Result)
    ensures r == Answer(s, name, raw, addr, live)
  {
    var shown := if name == "" then DEFAULT_NAME.text else name;
    if s.None? || ProfileKey(name) !in s.value.profiles {
      return Failed(UNKNOWN_CODE, shown, UNKNOWN_FINDING, Critical, shown);
    }
    if addr.None? {
      return Failed(MALFORMED_CODE, raw, MALFORMED_FINDING, High, raw);
    }
    var snap := s.value;
    var p := snap.profiles[ProfileKey(name)];
    var gap := FindGap(snap, p.rules);
    if gap.Some? {
      return Failed(MISSING_CODE, gap.value.name.text, MISSING_FINDING, Critical,
                    gap.value.kind + ":" + gap.value.name.text);
    }
    r := Decide(snap, p, ClientOf(snap, addr.value, live));
  }

  method Decide(s: Snapshot, p: Profile, k: Client) returns (r: Result)
    ensures r == Decided(s, p, k)
  {
    var face, on, mark := Fallback(p), Neither, None;
    var found := FirstMatch(s, p.rules, Allow, k);
    FirstHitIs(s, p.rules, Allow, k);
    FirstHitIs(s, p.rules, Deny, k);
    if found.Some? {
      on := White;
    } else {
      found := FirstMatch(s, p.rules, Deny, k);
      if found.Some? {
        on := Black;
      }
    }
    if found.Some? {
      face := Conclude(found.value, k.ip);
      mark := Some(Marked(found.value));
    }
    var rows := FireRows(s, p.rules, k);
    var effects := FireOutcomes(rows, p.outcomes, Stood(on), Some(k.ip), face.code);
    return Result(face, effects, Engine(k.country, mark));
  }

  /** `FireOverload`. */
  method FireOverload(s: Option<Snapshot>, name: string, addr: Option<Addr>, fill: int, shed: bool, reason: string)
    returns (e: Effects)
    ensures e == if s.Some? && ProfileKey(name) in s.value.profiles
                 then Overloaded(s.value.profiles[ProfileKey(name)], addr, fill, shed, reason) else NOTHING
  {
    if s.None? || ProfileKey(name) !in s.value.profiles {
      return NOTHING;
    }
    var ip := if addr.Some? then Some(Unmap(addr.value)) else None;
    e := FireOutcomes(NOTHING, s.value.profiles[ProfileKey(name)].outcomes, Queue(fill, shed), ip, reason);
  }

  function Overloaded(p: Profile, addr: Option<Addr>, fill: int, shed: bool, reason: string): Effects {
    OutcomeEffects(NOTHING, p.outcomes, Queue(fill, shed), if addr.Some? then Some(Unmap(addr.value)) else None, reason)
  }

  // ---- which row answers ----

  /** The row's set holds the address. */
  predicate Matched(s: Snapshot, r: Rule, a: Action, k: Client) {
    r.action == a && r.set_ in s.sets && Member(s.sets[r.set_], k)
  }

  predicate AnyMatched(s: Snapshot, rules: seq<Rule>, a: Action, k: Client) {
    exists i :: 0 <= i < |rules| && Matched(s, rules[i], a, k)
  }

  /** The row that is found is the topmost one whose set holds the address. */
  lemma {:induction false} FirstHitIs(s: Snapshot, rules: seq<Rule>, a: Action, k: Client)
    ensures var f := FirstHit(s, rules, a, k);
            && (f.Some? <==> AnyMatched(s, rules, a, k))
            && (f.Some? ==> f.value.row < |rules| && f.value.rule == rules[f.value.row] && f.value.rule.action == a &&
                            RowHit(s, f.value.rule, k) == Some(f.value.hit))
            && (f.Some? ==> forall j :: 0 <= j < f.value.row ==> !Matched(s, rules[j], a, k))
  {
    if rules != [] {
      var n := |rules| - 1;
      FirstHitIs(s, rules[..n], a, k);
      if rules[n].set_ in s.sets { ExplainIsMembership(s.sets[rules[n].set_], k); }
      assert forall j :: 0 <= j < n ==> rules[..n][j] == rules[j];
      if j :| 0 <= j < |rules[..n]| && Matched(s, rules[..n][j], a, k) { assert Matched(s, rules[j], a, k); }
      if j :| 0 <= j < |rules| && Matched(s, rules[j], a, k) {
        if j < n { assert Matched(s, rules[..n][j], a, k); }
      }
    }
  }

  /** Allow if any allow set holds the address, else deny if any deny set does, else the default. */
  lemma VerdictIs(s: Snapshot, p: Profile, k: Client)
    ensures var v := Decided(s, p, k).face.verdict;
            var allow := AnyMatched(s, p.rules, Allow, k);
            var deny := AnyMatched(s, p.rules, Deny, k);
            && (v == Pass <==> allow || (!deny && !p.fallback.Deny?))
            && (v == Block <==> !allow && (deny || p.fallback.Deny?))
  {
    FirstHitIs(s, p.rules, Allow, k);
    FirstHitIs(s, p.rules, Deny, k);
  }
}
