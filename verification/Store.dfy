/** The policy snapshot of internal/store/store.go: sets as an algebra over address tables, live sets and
    countries, and the load that compiles a tree into a snapshot or refuses it. */
module Store {
  import opened Bits
  import opened Netip
  import opened Netset

  /** The name of a set, a list, a live set, a profile or a country. */
  datatype Name = Name(text: string)

  const NO_NAME := Name("")
  const DEFAULT_NAME := Name("default")

  // ---- policy as it is parsed ----

  datatype Action = Allow | Deny | Request | Write

  predicate Terminal(a: Action) {
    a.Allow? || a.Deny?
  }

  /** The payload of a request to a neighbour, carried and not looked at. */
  datatype Ask = Ask(target: string, verb: string, code: string)

  datatype Rule = Rule(
    set_: Name, dataset: Name, negated: bool, action: Action,
    response: string, code: string, ask: Ask,
    list: Name, write: string, ttl: int)

  /** What `policy.normalizeRule` lets through. */
  predicate RuleOk(r: Rule) {
    && (Terminal(r.action) ==> r.set_ != NO_NAME && r.dataset == NO_NAME && !r.negated)
    && (!Terminal(r.action) ==> r.set_ == NO_NAME && r.dataset != NO_NAME)
    && (r.action.Write? ==> r.list != NO_NAME)
  }

  datatype On = White | Black | Neither | Overload

  datatype Outcome = Outcome(on: On, at: int, verb: string, ask: Ask, list: Name, write: string, ttl: int, code: string)

  /** What `policy.normalizeOutcome` lets through: an action or a list write, and not both. */
  predicate OutcomeOk(o: Outcome) {
    (o.verb == "") != (o.list == NO_NAME)
  }

  datatype Profile = Profile(rules: seq<Rule>, fallback: Action, fallbackCode: string, outcomes: seq<Outcome>)

  predicate ProfileOk(p: Profile) {
    && Terminal(p.fallback)
    && (forall i :: 0 <= i < |p.rules| ==> RuleOk(p.rules[i]))
    && (forall i :: 0 <= i < |p.outcomes| ==> OutcomeOk(p.outcomes[i]))
  }

  datatype MatchSpec = MatchSpec(lists: seq<Name>, asns: seq<nat>, live: seq<Name>, countries: seq<Name>)

  datatype SetSpec = SetSpec(match_: MatchSpec, inverse: bool, exclude: MatchSpec)

  /** What `policy.normalizeNames` lets through of a set's live names. */
  predicate SpecOk(s: SetSpec) {
    NO_NAME !in s.match_.live && NO_NAME !in s.exclude.live
  }

  /** A policy tree after its files are read and parsed. */
  datatype Tree = Tree(
    lists: map<Name, seq<Prefix>>,
    asns: map<Name, seq<Prefix>>,
    live: map<Name, Name>,
    sets: map<Name, SetSpec>,
    profiles: map<Name, Profile>,
    geo: seq<(Name, seq<Prefix>)>)

  // ---- the snapshot ----

  datatype Kind = KindList | KindAsn | KindCountry | KindLive | KindInverse

  datatype Source = Source(kind: Kind, name: Name, table: Table)

  datatype Match = Match(sources: seq<Source>, countries: seq<Name>, live: seq<Name>)

  datatype Hit = Hit(kind: Kind, name: Name, span: Option<Interval>)

  datatype Set = Set(name: Name, match_: Match, inverse: bool, exclude: Match)

  datatype List = List(uuid: Name, table: Table, live: bool)

  datatype Snapshot = Snapshot(
    sets: map<Name, Set>,
    profiles: map<Name, Profile>,
    lists: map<Name, List>,
    geo: seq<Country>,
    live: map<Name, Name>)

  /** What one check looks at: the unmapped address, its country, and the live sets that hold it. */
  datatype Client = Client(ip: Addr, country: Option<Name>, live: set<Name>)

  // ---- lookups ----

  function FirstSource(sources: seq<Source>, ip: Addr): Option<Hit> {
    if sources == [] then None
    else
      var at := TableLocate(sources[0].table, ip);
      if at.Some? then Some(Hit(sources[0].kind, sources[0].name, Some(at.value)))
      else FirstSource(sources[1..], ip)
  }

  function FirstLive(live: seq<Name>, held: set<Name>): Option<Hit> {
    if live == [] then None
    else if live[0] in held then Some(Hit(KindLive, live[0], None))
    else FirstLive(live[1..], held)
  }

  /** `Match.locate`: tables in order, then live sets, then countries. */
  function LocateIn(m: Match, k: Client): Option<Hit> {
    var table := FirstSource(m.sources, k.ip);
    if table.Some? then table
    else
      var live := FirstLive(m.live, k.live);
      if live.Some? then live
      else if k.country.Some? && k.country.value in m.countries then Some(Hit(KindCountry, k.country.value, None))
      else None
  }

  /** `Set.Explain`. */
  function Explain(s: Set, k: Client): Option<Hit> {
    var hit := LocateIn(s.match_, k);
    var in_ := hit.Some? && LocateIn(s.exclude, k).None?;
    if s.inverse then
      if in_ then None else Some(Hit(KindInverse, s.name, None))
    else if in_ then hit
    else None
  }

  /** `List.Contains`. */
  predicate ListContains(l: List, k: Client) {
    if l.live then l.uuid in k.live else TableLocate(l.table, k.ip).Some?
  }

  /** `LookupGeo`: the first country whose table holds the address. */
  function LookupGeo(geo: seq<Country>, ip: Addr): Option<Name> {
    if geo == [] then None
    else if TableLocate(geo[0].1, ip).Some? then Some(geo[0].0)
    else LookupGeo(geo[1..], ip)
  }

  // ---- what the lookups mean ----

  predicate InStatic(m: Match, k: Client) {
    (exists i :: 0 <= i < |m.sources| && TableLocate(m.sources[i].table, k.ip).Some?) ||
    (k.country.Some? && k.country.value in m.countries)
  }

  predicate InLive(m: Match, k: Client) {
    exists i :: 0 <= i < |m.live| && m.live[i] in k.live
  }

  /** The union of a block's lists, systems, live sets and countries. */
  predicate In(m: Match, k: Client) {
    InStatic(m, k) || InLive(m, k)
  }

  /** A set as algebra: the union, less the exclusion, then inverted. */
  predicate Member(s: Set, k: Client) {
    (In(s.match_, k) && !In(s.exclude, k)) != s.inverse
  }

  /** The source is the first whose table holds the address, and the hit is its own. */
  predicate FirstHolding(sources: seq<Source>, i: nat, ip: Addr, h: Hit) {
    && i < |sources|
    && h.kind == sources[i].kind && h.name == sources[i].name
    && h.span.Some? && TableLocate(sources[i].table, ip) == h.span
    && (forall j :: 0 <= j < i ==> TableLocate(sources[j].table, ip).None?)
  }

  /** The first source that has the address answers, with the interval that holds it. */
  lemma {:induction false} FirstSourceIs(sources: seq<Source>, ip: Addr)
    ensures FirstSource(sources, ip).Some? <==>
            exists i :: 0 <= i < |sources| && TableLocate(sources[i].table, ip).Some?
    ensures FirstSource(sources, ip).Some? ==>
            exists i: nat :: FirstHolding(sources, i, ip, FirstSource(sources, ip).value)
  {
    if sources != [] {
      var rest := sources[1..];
      FirstSourceIs(rest, ip);
      var at := TableLocate(sources[0].table, ip);
      if at.Some? {
        assert FirstHolding(sources, 0, ip, FirstSource(sources, ip).value);
      } else {
        if i :| 0 <= i < |sources| && TableLocate(sources[i].table, ip).Some? {
          assert TableLocate(rest[i - 1].table, ip).Some?;
        }
        if FirstSource(sources, ip).Some? {
          var h := FirstSource(sources, ip).value;
          var j: nat :| FirstHolding(rest, j, ip, h);
          FirstHoldingShift(sources, j, ip, h);
        }
      }
    }
  }

  lemma FirstHoldingShift(sources: seq<Source>, j: nat, ip: Addr, h: Hit)
    requires sources != [] && TableLocate(sources[0].table, ip).None? && FirstHolding(sources[1..], j, ip, h)
    ensures FirstHolding(sources, j + 1, ip, h)
  {
    forall i | 0 <= i < j + 1 ensures TableLocate(sources[i].table, ip).None? {
      if i > 0 { assert sources[1..][i - 1] == sources[i]; }
    }
  }

  lemma {:induction false} FirstLiveIs(live: seq<Name>, held: set<Name>)
    ensures FirstLive(live, held).Some? <==> exists i :: 0 <= i < |live| && live[i] in held
    ensures FirstLive(live, held).Some? ==> FirstLive(live, held).value.kind == KindLive
  {
    if live != [] {
      FirstLiveIs(live[1..], held);
      if live[0] !in held {
        if i :| 0 <= i < |live| && live[i] in held {
          assert live[1..][i - 1] in held;
        }
        if j :| 0 <= j < |live[1..]| && live[1..][j] in held {
          assert live[j + 1] in held;
        }
      }
    }
  }

  lemma LocateIsUnion(m: Match, k: Client)
    ensures LocateIn(m, k).Some? <==> In(m, k)
  {
    FirstSourceIs(m.sources, k.ip);
    FirstLiveIs(m.live, k.live);
  }

  /** The explained set is the algebra: an address matches exactly when it is a member. */
  lemma ExplainIsMembership(s: Set, k: Client)
    ensures Explain(s, k).Some? <==> Member(s, k)
  {
    LocateIsUnion(s.match_, k);
    LocateIsUnion(s.exclude, k);
  }

  // ---- loading ----

  /** The table was built from these prefixes. */
  ghost predicate TableOf(t: Table, prefixes: seq<Prefix>) {
    AllValid(prefixes) && Sound(t) && forall a :: TableHas(t, a) <==> BlockHas(prefixes, a)
  }

  function Digit(n: nat): char
    requires n < 10
  {
    "0123456789"[n]
  }

  function Decimal(n: nat): string {
    if n < 10 then [Digit(n)] else Decimal(n / 10) + [Digit(n % 10)]
  }

  function AsnName(n: nat): Name {
    Name(Decimal(n))
  }

  predicate TreeReadable(t: Tree) {
    && (forall u :: u in t.lists ==> AllValid(t.lists[u]))
    && (forall u :: u in t.asns ==> AllValid(t.asns[u]))
    && (forall i :: 0 <= i < |t.geo| ==> AllValid(t.geo[i].1))
    && (forall n :: n in t.sets ==> SpecOk(t.sets[n]))
    && (forall n :: n in t.profiles ==> ProfileOk(t.profiles[n]))
  }

  function AsnNames(asns: seq<nat>): seq<Name> {
    seq(|asns|, i requires 0 <= i < |asns| => AsnName(asns[i]))
  }

  predicate AllIn<T>(names: seq<Name>, m: map<Name, T>) {
    forall i :: 0 <= i < |names| ==> names[i] in m
  }

  /** Every list, system and live set a block names is there. */
  predicate Resolves(m: MatchSpec, t: Tree) {
    AllIn(m.lists, t.lists) && AllIn(AsnNames(m.asns), t.asns) && AllIn(m.live, t.live)
  }

  ghost predicate SourceOf(src: Source, kind: Kind, name: Name, bodies: map<Name, seq<Prefix>>) {
    src.kind == kind && src.name == name && name in bodies && TableOf(src.table, bodies[name])
  }

  /** One table per name, in order, built from the prefixes under that name. */
  ghost predicate SourcesOf(sources: seq<Source>, kind: Kind, names: seq<Name>, bodies: map<Name, seq<Prefix>>) {
    |sources| == |names| && forall i :: 0 <= i < |names| ==> SourceOf(sources[i], kind, names[i], bodies)
  }

  /** A compiled block: the tables of its lists, then those of its systems. */
  ghost predicate Compiled(m: MatchSpec, t: Tree, r: Match) {
    && r.countries == m.countries && r.live == m.live
    && |r.sources| == |m.lists| + |m.asns|
    && SourcesOf(r.sources[..|m.lists|], KindList, m.lists, t.lists)
    && SourcesOf(r.sources[|m.lists|..], KindAsn, AsnNames(m.asns), t.asns)
  }

  method CompileSources(kind: Kind, names: seq<Name>, bodies: map<Name, seq<Prefix>>) returns (r: Option<seq<Source>>)
    requires forall u :: u in bodies ==> AllValid(bodies[u])
    ensures r.Some? <==> AllIn(names, bodies)
    ensures r.Some? ==> SourcesOf(r.value, kind, names, bodies)
  {
    var sources: seq<Source> := [];
    for i := 0 to |names|
      invariant |sources| == i
      invariant forall j :: 0 <= j < i ==> names[j] in bodies && SourceOf(sources[j], kind, names[j], bodies)
    {
      if names[i] !in bodies {
        return None;
      }
      var table := Build(bodies[names[i]]);
      sources := sources + [Source(kind, names[i], table)];
    }
    return Some(sources);
  }

  /** `compileMatch`. */
  method CompileMatch(m: MatchSpec, t: Tree) returns (r: Option<Match>)
    requires TreeReadable(t)
    ensures r.Some? <==> Resolves(m, t)
    ensures r.Some? ==> Compiled(m, t, r.value)
  {
    var lists := CompileSources(KindList, m.lists, t.lists);
    if lists.None? {
      return None;
    }
    var asns := CompileSources(KindAsn, AsnNames(m.asns), t.asns);
    if asns.None? {
      return None;
    }
    for i := 0 to |m.live|
      invariant forall j :: 0 <= j < i ==> m.live[j] in t.live
    {
      if m.live[i] !in t.live {
        return None;
      }
    }
    var sources := lists.value + asns.value;
    assert sources[..|m.lists|] == lists.value && sources[|m.lists|..] == asns.value;
    return Some(Match(sources, m.countries, m.live));
  }

  predicate SetResolves(s: SetSpec, t: Tree) {
    Resolves(s.match_, t) && Resolves(s.exclude, t)
  }

  ghost predicate SetCompiled(name: Name, s: SetSpec, t: Tree, r: Set) {
    r.name == name && r.inverse == s.inverse && Compiled(s.match_, t, r.match_) && Compiled(s.exclude, t, r.exclude)
  }

  ghost predicate SetsCompiled(t: Tree, sets: map<Name, Set>) {
    && (forall n :: n in sets <==> n in t.sets)
    && (forall n :: n in t.sets ==> SetCompiled(n, t.sets[n], t, sets[n]))
  }

  method CompileSet(name: Name, spec: SetSpec, t: Tree) returns (r: Option<Set>)
    requires TreeReadable(t)
    ensures r.Some? <==> SetResolves(spec, t)
    ensures r.Some? ==> SetCompiled(name, spec, t, r.value)
  {
    var main := CompileMatch(spec.match_, t);
    if main.None? {
      return None;
    }
    var ex := CompileMatch(spec.exclude, t);
    if ex.None? {
      return None;
    }
    return Some(Set(name, main.value, spec.inverse, ex.value));
  }

  /** `compileSets`. */
  method CompileSets(t: Tree) returns (r: Option<map<Name, Set>>)
    requires TreeReadable(t)
    ensures r.Some? <==> forall n :: n in t.sets ==> SetResolves(t.sets[n], t)
    ensures r.Some? ==> SetsCompiled(t, r.value)
  {
    var out: map<Name, Set> := map[];
    var done: set<Name> := {};
    while done != t.sets.Keys
      invariant CompiledSoFar(t, done, out)
      decreases |t.sets.Keys - done|
    {
      var name :| name in t.sets.Keys - done;
      var built := CompileSet(name, t.sets[name], t);
      if built.None? {
        return None;
      }
      Shrinks(t.sets.Keys, done, name);
      OneMoreCompiled(t, done, out, name, built.value);
      out := out[name := built.value];
      done := done + {name};
    }
    return Some(out);
  }

  ghost predicate CompiledSoFar(t: Tree, done: set<Name>, out: map<Name, Set>) {
    && done <= t.sets.Keys && (forall n :: n in out <==> n in done)
    && (forall n :: n in done ==> SetResolves(t.sets[n], t) && SetCompiled(n, t.sets[n], t, out[n]))
  }

  lemma OneMoreCompiled(t: Tree, done: set<Name>, out: map<Name, Set>, n: Name, s: Set)
    requires CompiledSoFar(t, done, out) && n in t.sets
    requires SetResolves(t.sets[n], t) && SetCompiled(n, t.sets[n], t, s)
    ensures CompiledSoFar(t, done + {n}, out[n := s])
  {
  }

  lemma Shrinks(all: set<Name>, done: set<Name>, n: Name)
    requires n in all - done
    ensures |all - (done + {n})| < |all - done|
  {
    assert all - (done + {n}) == (all - done) - {n};
  }

  method CompileBody(u: Name, prefixes: seq<Prefix>) returns (l: List)
    requires AllValid(prefixes)
    ensures BodyOf(l, u, prefixes)
  {
    var table := Build(prefixes);
    l := List(u, table, false);
  }

  method CompileBodies(lists: map<Name, seq<Prefix>>) returns (out: map<Name, List>)
    requires forall u :: u in lists ==> AllValid(lists[u])
    ensures forall u :: u in out <==> u in lists
    ensures forall u :: u in lists ==> BodyOf(out[u], u, lists[u])
  {
    out := map[];
    var done: set<Name> := {};
    while done != lists.Keys
      invariant done <= lists.Keys && forall u :: u in out <==> u in done
      invariant forall u :: u in done ==> BodyOf(out[u], u, lists[u])
      decreases |lists.Keys - done|
    {
      var u :| u in lists.Keys - done;
      var l := CompileBody(u, lists[u]);
      Shrinks(lists.Keys, done, u);
      out := out[u := l];
      done := done + {u};
    }
  }

  function Subject(u: Name): List {
    List(u, Table([], []), true)
  }

  /** No dataset is both a body and a live subject. */
  predicate Apart<T, U>(bodies: map<Name, T>, live: map<Name, U>) {
    forall u :: u in bodies ==> u !in live
  }

  /** Live subjects beside the bodies; none where a subject is already a body. */
  method AddSubjects(bodies: map<Name, List>, live: map<Name, Name>) returns (r: Option<map<Name, List>>)
    ensures r.Some? <==> Apart(bodies, live)
    ensures r.Some? ==> forall u :: u in r.value <==> u in bodies || u in live
    ensures r.Some? ==> forall u :: u in bodies ==> r.value[u] == bodies[u]
    ensures r.Some? ==> forall u :: u in live ==> r.value[u] == Subject(u)
  {
    var out := bodies;
    var done: set<Name> := {};
    while done != live.Keys
      invariant done <= live.Keys && (forall u :: u in done ==> u !in bodies)
      invariant forall u :: u in out <==> u in bodies || u in done
      invariant forall u :: u in bodies ==> out[u] == bodies[u]
      invariant forall u :: u in done ==> out[u] == Subject(u)
      decreases |live.Keys - done|
    {
      var u :| u in live.Keys - done;
      if u in out {
        return None;
      }
      Shrinks(live.Keys, done, u);
      out := out[u := Subject(u)];
      done := done + {u};
    }
    return Some(out);
  }

  /** `compileLists`: a dataset is a body or a live subject, and not both. */
  method CompileLists(t: Tree) returns (r: Option<map<Name, List>>)
    requires TreeReadable(t)
    ensures r.Some? <==> Apart(t.lists, t.live)
    ensures r.Some? ==> ListsCompiled(t, r.value)
  {
    var bodies := CompileBodies(t.lists);
    r := AddSubjects(bodies, t.live);
  }

  ghost predicate ListsCompiled(t: Tree, lists: map<Name, List>) {
    && (forall u :: u in lists <==> u in t.lists || u in t.live)
    && (forall u :: u in t.lists ==> BodyOf(lists[u], u, t.lists[u]))
    && (forall u :: u in t.live && u !in t.lists ==> lists[u] == Subject(u))
  }

  ghost predicate BodyOf(l: List, u: Name, prefixes: seq<Prefix>) {
    l.uuid == u && !l.live && TableOf(l.table, prefixes)
  }

  /** The reference checks of `loadProfiles`. */
  predicate RuleRefers(r: Rule, sets: set<Name>, lists: set<Name>, live: set<Name>) {
    && (Terminal(r.action) ==> r.set_ in sets)
    && (!Terminal(r.action) ==> r.dataset in lists)
    && (r.action.Write? ==> r.list in live)
  }

  predicate OutcomeRefers(o: Outcome, live: set<Name>) {
    o.list != NO_NAME ==> o.list in live
  }

  predicate Refers(p: Profile, sets: set<Name>, lists: set<Name>, live: set<Name>) {
    && (forall i :: 0 <= i < |p.rules| ==> RuleRefers(p.rules[i], sets, lists, live))
    && (forall i :: 0 <= i < |p.outcomes| ==> OutcomeRefers(p.outcomes[i], live))
  }

  method CheckProfile(p: Profile, sets: set<Name>, lists: set<Name>, live: set<Name>) returns (ok: bool)
    ensures ok <==> Refers(p, sets, lists, live)
  {
    for i := 0 to |p.rules|
      invariant forall j :: 0 <= j < i ==> RuleRefers(p.rules[j], sets, lists, live)
    {
      var rule := p.rules[i];
      if Terminal(rule.action) {
        if rule.set_ !in sets {
          return false;
        }
      } else if rule.dataset !in lists {
        return false;
      }
      if rule.action.Write? && rule.list !in live {
        return false;
      }
    }
    for i := 0 to |p.outcomes|
      invariant forall j :: 0 <= j < i ==> OutcomeRefers(p.outcomes[j], live)
    {
      if p.outcomes[i].list != NO_NAME && p.outcomes[i].list !in live {
        return false;
      }
    }
    return true;
  }

  method CheckProfiles(profiles: map<Name, Profile>, sets: set<Name>, lists: set<Name>, live: set<Name>)
    returns (ok: bool)
    ensures ok <==> forall n :: n in profiles ==> Refers(profiles[n], sets, lists, live)
  {
    var todo := profiles.Keys;
    while todo != {}
      invariant todo <= profiles.Keys
      invariant forall n :: n in profiles && n !in todo ==> Refers(profiles[n], sets, lists, live)
      decreases |todo|
    {
      var n :| n in todo;
      var good := CheckProfile(profiles[n], sets, lists, live);
      if !good {
        return false;
      }
      todo := todo - {n};
    }
    return true;
  }

  // ---- countries ----

  type Country = (Name, Table)

  /** The order of strings. */
  predicate Less(a: string, b: string) {
    b != "" && (a == "" || a[0] < b[0] || (a[0] == b[0] && Less(a[1..], b[1..])))
  }

  lemma {:induction false} LessTrans(a: string, b: string, c: string)
    requires !Less(b, a) && !Less(c, b)
    ensures !Less(c, a)
  {
    if a != "" && b != "" && c != "" && a[0] == b[0] == c[0] { LessTrans(a[1..], b[1..], c[1..]); }
  }

  lemma {:induction false} LessNotSelf(a: string, b: string)
    ensures Less(a, b) ==> !Less(b, a)
  {
    if a != "" && b != "" && a[0] == b[0] { LessNotSelf(a[1..], b[1..]); }
  }

  predicate ByName(s: seq<Country>) {
    forall i, j :: 0 <= i < j < |s| ==> !Less(s[j].0.text, s[i].0.text)
  }

  function InsertByName(x: Country, s: seq<Country>): (r: seq<Country>)
    ensures multiset(r) == multiset(s) + multiset{x}
  {
    if s == [] then [x]
    else if !Less(s[0].0.text, x.0.text) then [x] + s
    else
      assert s == [s[0]] + s[1..];
      [s[0]] + InsertByName(x, s[1..])
  }

  /** `sort.Slice` by name. */
  function SortByName(s: seq<Country>): (r: seq<Country>)
    ensures multiset(r) == multiset(s)
  {
    if s == [] then []
    else
      assert s == [s[0]] + s[1..];
      InsertByName(s[0], SortByName(s[1..]))
  }

  lemma {:induction false} InsertKeepsOrder(x: Country, s: seq<Country>)
    requires ByName(s)
    ensures ByName(InsertByName(x, s))
  {
    if s != [] {
      if !Less(s[0].0.text, x.0.text) {
        forall j | 0 <= j < |s| ensures !Less(s[j].0.text, x.0.text) {
          if j > 0 { LessTrans(x.0.text, s[0].0.text, s[j].0.text); }
        }
      } else {
        var rest := InsertByName(x, s[1..]);
        InsertKeepsOrder(x, s[1..]);
        LessNotSelf(s[0].0.text, x.0.text);
        forall j | 0 <= j < |rest| ensures !Less(rest[j].0.text, s[0].0.text) {
          assert rest[j] in multiset(rest);
          assert rest[j] in s[1..] || rest[j] == x;
        }
      }
    }
  }

  lemma {:induction false} SortIsByName(s: seq<Country>)
    ensures ByName(SortByName(s))
  {
    if s != [] {
      SortIsByName(s[1..]);
      InsertKeepsOrder(s[0], SortByName(s[1..]));
    }
  }

  /** One exact table per country directory, in the order they were read. */
  ghost predicate GeoRead(t: Tree, read: seq<Country>) {
    |read| == |t.geo| && forall i :: 0 <= i < |read| ==> read[i].0 == t.geo[i].0 && TableOf(read[i].1, t.geo[i].1)
  }

  /** Those tables, ordered by name. */
  ghost predicate GeoCompiled(t: Tree, geo: seq<Country>) {
    ByName(geo) && exists read :: GeoRead(t, read) && multiset(geo) == multiset(read)
  }

  /** `loadGeo`. */
  method CompileGeo(t: Tree) returns (geo: seq<Country>)
    requires TreeReadable(t)
    ensures GeoCompiled(t, geo)
  {
    var read: seq<Country> := [];
    for i := 0 to |t.geo|
      invariant |read| == i && forall j :: 0 <= j < i ==> read[j].0 == t.geo[j].0 && TableOf(read[j].1, t.geo[j].1)
    {
      var table := Build(t.geo[i].1);
      read := read + [(t.geo[i].0, table)];
    }
    geo := SortByName(read);
    SortIsByName(read);
    assert GeoRead(t, read);
  }

  /** The country at this place of the tree has the address in its blocks. */
  ghost predicate Lists(t: Tree, i: int, ip: Addr) {
    0 <= i < |t.geo| && AllValid(t.geo[i].1) && BlockHas(t.geo[i].1, Unmap(ip))
  }

  lemma {:induction false} LookupGeoIs(geo: seq<Country>, ip: Addr)
    ensures LookupGeo(geo, ip).None? ==> forall i :: 0 <= i < |geo| ==> TableLocate(geo[i].1, ip).None?
    ensures LookupGeo(geo, ip).Some? ==>
              exists j :: 0 <= j < |geo| && geo[j].0 == LookupGeo(geo, ip).value && TableLocate(geo[j].1, ip).Some? &&
                          forall i :: 0 <= i < j ==> TableLocate(geo[i].1, ip).None?
  {
    if geo != [] && TableLocate(geo[0].1, ip).None? {
      var rest := geo[1..];
      LookupGeoIs(rest, ip);
      assert forall i :: 0 < i < |geo| ==> geo[i] == rest[i - 1];
      if LookupGeo(geo, ip).Some? {
        var j :| 0 <= j < |rest| && rest[j].0 == LookupGeo(rest, ip).value && TableLocate(rest[j].1, ip).Some? &&
                 forall i :: 0 <= i < j ==> TableLocate(rest[i].1, ip).None?;
        assert geo[j + 1] == rest[j];
      }
    }
  }

  /** Whatever order the directories are read in, the country of an address is the first by name of those whose
      blocks hold it, and none exactly when none does. */
  lemma CountryIsFirst(t: Tree, geo: seq<Country>, ip: Addr)
    requires GeoCompiled(t, geo)
    ensures var c := LookupGeo(geo, ip);
            && (c.Some? <==> exists i :: Lists(t, i, ip))
            && (c.Some? ==> exists i :: Lists(t, i, ip) && t.geo[i].0 == c.value)
            && (c.Some? ==> forall i :: Lists(t, i, ip) ==> !Less(t.geo[i].0.text, c.value.text))
  {
    var read :| GeoRead(t, read) && multiset(geo) == multiset(read);
    LookupGeoIs(geo, ip);
    forall i | Lists(t, i, ip) ensures LookupGeo(geo, ip).Some? && !Less(t.geo[i].0.text, LookupGeo(geo, ip).value.text) {
      ListedIsFound(t, geo, read, ip, i);
    }
    if LookupGeo(geo, ip).Some? {
      var j :| 0 <= j < |geo| && geo[j].0 == LookupGeo(geo, ip).value && TableLocate(geo[j].1, ip).Some?;
      FoundIsListed(t, geo, read, ip, j);
    }
  }

  lemma ListedIsFound(t: Tree, geo: seq<Country>, read: seq<Country>, ip: Addr, i: nat)
    requires GeoRead(t, read) && multiset(geo) == multiset(read) && ByName(geo) && Lists(t, i, ip)
    ensures LookupGeo(geo, ip).Some? && !Less(t.geo[i].0.text, LookupGeo(geo, ip).value.text)
  {
    LookupIsMembership(read[i].1, t.geo[i].1, ip);
    assert read[i] in multiset(geo);
    var k :| 0 <= k < |geo| && geo[k] == read[i];
    LocatedIsNotBefore(geo, ip, k);
  }

  /** In a list ordered by name the first table that holds an address has a name no later than any other's. */
  lemma LocatedIsNotBefore(geo: seq<Country>, ip: Addr, k: nat)
    requires ByName(geo) && k < |geo| && TableLocate(geo[k].1, ip).Some?
    ensures LookupGeo(geo, ip).Some? && !Less(geo[k].0.text, LookupGeo(geo, ip).value.text)
  {
    LookupGeoIs(geo, ip);
    var j :| 0 <= j < |geo| && geo[j].0 == LookupGeo(geo, ip).value && TableLocate(geo[j].1, ip).Some? &&
             forall i :: 0 <= i < j ==> TableLocate(geo[i].1, ip).None?;
    assert j <= k;
    LessNotSelf(geo[j].0.text, geo[j].0.text);
  }

  lemma FoundIsListed(t: Tree, geo: seq<Country>, read: seq<Country>, ip: Addr, j: nat)
    requires GeoRead(t, read) && multiset(geo) == multiset(read) && j < |geo| && TableLocate(geo[j].1, ip).Some?
    ensures exists i :: Lists(t, i, ip) && t.geo[i].0 == geo[j].0
  {
    assert geo[j] in multiset(read);
    var i :| 0 <= i < |read| && read[i] == geo[j];
    LookupIsMembership(read[i].1, t.geo[i].1, ip);
    assert Lists(t, i, ip);
  }

  /** A uuid some set or profile asks about or writes to. */
  predicate SetUses(s: Set, u: Name) {
    u in s.match_.live || u in s.exclude.live
  }

  predicate RuleNames(r: Rule, u: Name) {
    r.dataset == u || (r.action.Write? && r.list == u)
  }

  predicate ProfileUses(p: Profile, u: Name) {
    (exists i :: 0 <= i < |p.rules| && RuleNames(p.rules[i], u)) ||
    (exists i :: 0 <= i < |p.outcomes| && p.outcomes[i].list == u)
  }

  predicate Uses(sets: map<Name, Set>, profiles: map<Name, Profile>, u: Name) {
    AnySetUses(sets, sets.Keys, u) || AnyProfileUses(profiles, profiles.Keys, u)
  }

  /** What `usedLive` has gathered from a list of uuids: the declared ones, with their names. */
  predicate Gathered(out: map<Name, Name>, declared: map<Name, Name>) {
    forall u :: u in out ==> u in declared && u != NO_NAME && out[u] == declared[u]
  }

  predicate AnySetUses(sets: map<Name, Set>, done: set<Name>, u: Name) {
    exists n :: n in done && n in sets && SetUses(sets[n], u)
  }

  predicate AnyProfileUses(profiles: map<Name, Profile>, done: set<Name>, u: Name) {
    exists n :: n in done && n in profiles && ProfileUses(profiles[n], u)
  }

  /** `usedLive`: of the declared live sets, those that something refers to. */
  method UsedLive(sets: map<Name, Set>, profiles: map<Name, Profile>, declared: map<Name, Name>)
    returns (out: map<Name, Name>)
    ensures Gathered(out, declared)
    ensures forall u :: u in declared && u != NO_NAME ==> (u in out <==> Uses(sets, profiles, u))
  {
    var bySets := UsedBySets(sets, declared);
    out := UsedByProfiles(bySets, profiles, declared);
  }

  method UsedBySets(sets: map<Name, Set>, declared: map<Name, Name>) returns (out: map<Name, Name>)
    ensures Gathered(out, declared)
    ensures forall u :: u in declared && u != NO_NAME ==> (u in out <==> AnySetUses(sets, sets.Keys, u))
  {
    out := map[];
    var done: set<Name> := {};
    while done != sets.Keys
      invariant done <= sets.Keys && Gathered(out, declared)
      invariant forall u :: u in declared && u != NO_NAME ==> (u in out <==> AnySetUses(sets, done, u))
      decreases |sets.Keys - done|
    {
      var n :| n in sets.Keys - done;
      var uuids := sets[n].match_.live + sets[n].exclude.live;
      out := Want(out, uuids, declared);
      forall u ensures AnySetUses(sets, done + {n}, u) <==> AnySetUses(sets, done, u) || u in uuids {
        AnySetStep(sets, done, n, u);
      }
      Shrinks(sets.Keys, done, n);
      done := done + {n};
    }
  }

  lemma AnySetStep(sets: map<Name, Set>, done: set<Name>, n: Name, u: Name)
    requires n in sets
    ensures AnySetUses(sets, done + {n}, u) <==>
            AnySetUses(sets, done, u) || u in sets[n].match_.live + sets[n].exclude.live
  {
    assert u in sets[n].match_.live + sets[n].exclude.live <==> SetUses(sets[n], u);
  }

  method UsedByProfiles(bySets: map<Name, Name>, profiles: map<Name, Profile>, declared: map<Name, Name>)
    returns (out: map<Name, Name>)
    requires Gathered(bySets, declared)
    ensures Gathered(out, declared)
    ensures forall u :: u in declared && u != NO_NAME ==> (u in out <==> u in bySets || AnyProfileUses(profiles, profiles.Keys, u))
  {
    out := bySets;
    var done: set<Name> := {};
    while done != profiles.Keys
      invariant done <= profiles.Keys && Gathered(out, declared)
      invariant forall u :: u in declared && u != NO_NAME ==> (u in out <==> u in bySets || AnyProfileUses(profiles, done, u))
      decreases |profiles.Keys - done|
    {
      var n :| n in profiles.Keys - done;
      var named := Named(profiles[n]);
      out := Want(out, named, declared);
      forall u ensures AnyProfileUses(profiles, done + {n}, u) <==> AnyProfileUses(profiles, done, u) || ProfileUses(profiles[n], u) {
        AnyProfileStep(profiles, done, n, u);
      }
      Shrinks(profiles.Keys, done, n);
      done := done + {n};
    }
  }

  lemma AnyProfileStep(profiles: map<Name, Profile>, done: set<Name>, n: Name, u: Name)
    requires n in profiles
    ensures AnyProfileUses(profiles, done + {n}, u) <==> AnyProfileUses(profiles, done, u) || ProfileUses(profiles[n], u)
  {
  }

  /** The uuids a profile's rows and outcomes name, in order. */
  method Named(p: Profile) returns (r: seq<Name>)
    ensures forall u :: u != NO_NAME ==> (u in r <==> ProfileUses(p, u))
  {
    r := [];
    for i := 0 to |p.rules|
      invariant forall u :: u in r <==> exists j :: 0 <= j < i && RuleNames(p.rules[j], u)
    {
      r := r + [p.rules[i].dataset];
      if p.rules[i].action.Write? {
        r := r + [p.rules[i].list];
      }
    }
    ghost var fromRules := r;
    for i := 0 to |p.outcomes|
      invariant forall u :: u in r <==> u in fromRules || exists j :: 0 <= j < i && p.outcomes[j].list == u
    {
      r := r + [p.outcomes[i].list];
    }
  }

  method Want(out: map<Name, Name>, uuids: seq<Name>, declared: map<Name, Name>) returns (r: map<Name, Name>)
    requires Gathered(out, declared)
    ensures Gathered(r, declared)
    ensures forall u :: u in r <==> u in out || (u in uuids && u in declared && u != NO_NAME)
  {
    r := out;
    for i := 0 to |uuids|
      invariant Gathered(r, declared)
      invariant forall u :: u in r <==> u in out || (u in uuids[..i] && u in declared && u != NO_NAME)
    {
      assert uuids[..i + 1] == uuids[..i] + [uuids[i]];
      if uuids[i] != NO_NAME && uuids[i] in declared {
        r := r[uuids[i] := declared[uuids[i]]];
      }
    }
    assert uuids[..|uuids|] == uuids;
  }

  // ---- the whole load ----

  /** A tree that loads: every name resolves, no dataset is both body and subject, the default profile
      is there. */
  predicate Loads(t: Tree) {
    && (forall n :: n in t.sets ==> SetResolves(t.sets[n], t))
    && Apart(t.lists, t.live)
    && (forall n :: n in t.profiles ==> Refers(t.profiles[n], t.sets.Keys, t.lists.Keys + t.live.Keys, t.live.Keys))
    && DEFAULT_NAME in t.profiles
  }

  ghost predicate SnapshotOf(t: Tree, s: Snapshot) {
    && Loads(t)
    && SetsCompiled(t, s.sets)
    && ListsCompiled(t, s.lists)
    && s.profiles == t.profiles
    && GeoCompiled(t, s.geo)
    && Gathered(s.live, t.live)
    && (forall u :: u in t.live && u != NO_NAME ==> (u in s.live <==> Uses(s.sets, s.profiles, u)))
  }

  /** `build`: it accepts exactly the trees that load, and the snapshot is the tree compiled. */
  method Compile(t: Tree) returns (r: Option<Snapshot>)
    requires TreeReadable(t)
    ensures r.Some? <==> Loads(t)
    ensures r.Some? ==> SnapshotOf(t, r.value)
  {
    var sets := CompileSets(t);
    if sets.None? {
      return None;
    }
    var lists := CompileLists(t);
    if lists.None? {
      return None;
    }
    assert sets.value.Keys == t.sets.Keys && lists.value.Keys == t.lists.Keys + t.live.Keys;
    var ok := CheckProfiles(t.profiles, sets.value.Keys, lists.value.Keys, t.live.Keys);
    if !ok {
      return None;
    }
    if DEFAULT_NAME !in t.profiles {
      return None;
    }
    var geo := CompileGeo(t);
    var live := UsedLive(sets.value, t.profiles, t.live);
    return Some(Snapshot(sets.value, t.profiles, lists.value, geo, live));
  }
}
