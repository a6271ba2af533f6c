/** Configuration validation and lookups (package `config`). */
module Config {
  import opened Domain

  datatype TransportType = LocalTransport | GDriveTransport | OtherTransport(text: string)

  datatype Transport = Transport(name: string, kind: TransportType)

  datatype Endpoint = Endpoint(name: string, transport: string, root: string)

  datatype Schedule = Schedule(enabled: bool, interval: string)

  /** `mode` is nothing for an unknown mode text. */
  datatype RuleConfig = RuleConfig(name: string, mode: Option<SyncMode>, source: string, target: string,
                                   ignorePatterns: seq<string>, strategy: ConflictStrategy, enabled: bool,
                                   schedule: Option<Schedule>)

  datatype Config = Config(transports: seq<Transport>, endpoints: seq<Endpoint>, rules: seq<RuleConfig>,
                           defaultInterval: string)

  /** Names are present and different. */
  ghost predicate Named(names: seq<string>) {
    "" !in names && forall i, j :: 0 <= i < j < |names| ==> names[i] != names[j]
  }

  function TransportNames(ts: seq<Transport>): seq<string> {
    seq(|ts|, i requires 0 <= i < |ts| => ts[i].name)
  }

  function EndpointNames(es: seq<Endpoint>): seq<string> {
    seq(|es|, i requires 0 <= i < |es| => es[i].name)
  }

  function RuleNames(rs: seq<RuleConfig>): seq<string> {
    seq(|rs|, i requires 0 <= i < |rs| => rs[i].name)
  }

  predicate EndpointOk(e: Endpoint, transports: seq<string>) {
    e.transport != "" && e.transport in transports && e.root != ""
  }

  predicate RuleOk(r: RuleConfig, endpoints: seq<string>) {
    && r.source in endpoints && r.target in endpoints
    && r.source != "" && r.target != "" && r.source != r.target
    && r.mode.Some? && (r.strategy.Unknown? ==> r.strategy.text == "")
  }

  predicate IntervalOk(text: string, parses: string -> bool) {
    text != "" ==> parses(text)
  }

  /** What a configuration must be to be accepted: every name present and unique within its kind, every
      reference resolved, every rule between two different endpoints, every interval a duration. */
  ghost predicate Acceptable(c: Config, parses: string -> bool) {
    && TransportsOk(c) && EndpointsOk(c) && RulesOk(c)
    && IntervalOk(c.defaultInterval, parses)
    && (forall r :: r in c.rules && r.schedule.Some? ==> IntervalOk(r.schedule.value.interval, parses))
  }

  ghost predicate TransportsOk(c: Config) {
    Named(TransportNames(c.transports)) && forall t :: t in c.transports ==> !t.kind.OtherTransport?
  }

  ghost predicate EndpointsOk(c: Config) {
    Named(EndpointNames(c.endpoints)) && forall e :: e in c.endpoints ==> EndpointOk(e, TransportNames(c.transports))
  }

  ghost predicate RulesOk(c: Config) {
    Named(RuleNames(c.rules)) && forall r :: r in c.rules ==> RuleOk(r, EndpointNames(c.endpoints))
  }

  ghost predicate HasTransport(c: Config, name: string) {
    exists t :: t in c.transports && t.name == name
  }

  ghost predicate HasEndpoint(c: Config, name: string) {
    exists e :: e in c.endpoints && e.name == name
  }

  /** The same, field by field. */
  lemma AcceptableMeans(c: Config, parses: string -> bool)
    ensures Acceptable(c, parses) <==>
            && (forall i :: 0 <= i < |c.transports| ==>
                  c.transports[i].name != "" && !c.transports[i].kind.OtherTransport?)
            && (forall i, j :: 0 <= i < j < |c.transports| ==> c.transports[i].name != c.transports[j].name)
            && (forall i :: 0 <= i < |c.endpoints| ==>
                  && c.endpoints[i].name != "" && c.endpoints[i].root != "" && c.endpoints[i].transport != ""
                  && HasTransport(c, c.endpoints[i].transport))
            && (forall i, j :: 0 <= i < j < |c.endpoints| ==> c.endpoints[i].name != c.endpoints[j].name)
            && (forall i :: 0 <= i < |c.rules| ==>
                  var r := c.rules[i];
                  && r.name != "" && r.source != "" && r.target != "" && r.source != r.target
                  && HasEndpoint(c, r.source) && HasEndpoint(c, r.target)
                  && r.mode.Some? && (!r.strategy.Unknown? || r.strategy.text == ""))
            && (forall i, j :: 0 <= i < j < |c.rules| ==> c.rules[i].name != c.rules[j].name)
            && (c.defaultInterval != "" ==> parses(c.defaultInterval))
            && (forall r :: r in c.rules && r.schedule.Some? && r.schedule.value.interval != "" ==>
                  parses(r.schedule.value.interval))
  {
    TransportsMean(c);
    EndpointsMean(c);
    RulesMean(c);
  }

  lemma TransportsMean(c: Config)
    ensures TransportsOk(c) <==>
            && (forall i :: 0 <= i < |c.transports| ==>
                  c.transports[i].name != "" && !c.transports[i].kind.OtherTransport?)
            && (forall i, j :: 0 <= i < j < |c.transports| ==> c.transports[i].name != c.transports[j].name)
  {
    var names := TransportNames(c.transports);
    assert forall i :: 0 <= i < |c.transports| ==> names[i] == c.transports[i].name && c.transports[i] in c.transports;
  }

  lemma EndpointsMean(c: Config)
    ensures EndpointsOk(c) <==>
            && (forall i :: 0 <= i < |c.endpoints| ==>
                  && c.endpoints[i].name != "" && c.endpoints[i].root != "" && c.endpoints[i].transport != ""
                  && HasTransport(c, c.endpoints[i].transport))
            && (forall i, j :: 0 <= i < j < |c.endpoints| ==> c.endpoints[i].name != c.endpoints[j].name)
  {
    var names := EndpointNames(c.endpoints);
    assert forall i :: 0 <= i < |c.endpoints| ==> names[i] == c.endpoints[i].name && c.endpoints[i] in c.endpoints;
    forall name ensures name in TransportNames(c.transports) <==> HasTransport(c, name) {
      TransportNamed(c, name);
    }
  }

  lemma TransportNamed(c: Config, name: string)
    ensures name in TransportNames(c.transports) <==> HasTransport(c, name)
  {
    var names := TransportNames(c.transports);
    assert forall i :: 0 <= i < |names| ==> names[i] == c.transports[i].name;
    if t :| t in c.transports && t.name == name {
      var i :| 0 <= i < |names| && c.transports[i] == t;
      assert names[i] == name;
    }
  }

  lemma EndpointNamed(c: Config, name: string)
    ensures name in EndpointNames(c.endpoints) <==> HasEndpoint(c, name)
  {
    var names := EndpointNames(c.endpoints);
    assert forall i :: 0 <= i < |names| ==> names[i] == c.endpoints[i].name;
    if e :| e in c.endpoints && e.name == name {
      var i :| 0 <= i < |names| && c.endpoints[i] == e;
      assert names[i] == name;
    }
  }

  lemma RulesMean(c: Config)
    ensures RulesOk(c) <==>
            && (forall i :: 0 <= i < |c.rules| ==>
                  var r := c.rules[i];
                  && r.name != "" && r.source != "" && r.target != "" && r.source != r.target
                  && HasEndpoint(c, r.source) && HasEndpoint(c, r.target)
                  && r.mode.Some? && (!r.strategy.Unknown? || r.strategy.text == ""))
            && (forall i, j :: 0 <= i < j < |c.rules| ==> c.rules[i].name != c.rules[j].name)
  {
    var names := RuleNames(c.rules);
    assert forall i :: 0 <= i < |c.rules| ==> names[i] == c.rules[i].name && c.rules[i] in c.rules;
    forall name ensures name in EndpointNames(c.endpoints) <==> HasEndpoint(c, name) {
      EndpointNamed(c, name);
    }
  }

  method ValidateTransports(c: Config) returns (ok: bool, transportNames: set<string>)
    ensures ok <==> TransportsOk(c)
    ensures ok ==> forall n :: n in transportNames <==> n in TransportNames(c.transports)
  {
    ok, transportNames := true, {};
    ghost var ts := TransportNames(c.transports);
    for i := 0 to |c.transports|
      invariant ok && forall n :: n in transportNames <==> n in ts[..i]
      invariant Named(ts[..i]) && forall j :: 0 <= j < i ==> !c.transports[j].kind.OtherTransport?
    {
      var t := c.transports[i];
      assert ts[..i + 1] == ts[..i] + [t.name] && ts[i] == t.name;
      if t.name == "" || t.name in transportNames || t.kind.OtherTransport? {
        ok := false;
        return;
      }
      transportNames := transportNames + {t.name};
    }
    assert ts[..|ts|] == ts;
  }

  method ValidateEndpoints(c: Config, transportNames: set<string>) returns (ok: bool, endpointNames: set<string>)
    requires forall n :: n in transportNames <==> n in TransportNames(c.transports)
    ensures ok <==> EndpointsOk(c)
    ensures ok ==> forall n :: n in endpointNames <==> n in EndpointNames(c.endpoints)
  {
    ok, endpointNames := true, {};
    ghost var es := EndpointNames(c.endpoints);
    for i := 0 to |c.endpoints|
      invariant ok && forall n :: n in endpointNames <==> n in es[..i]
      invariant Named(es[..i]) && forall j :: 0 <= j < i ==> EndpointOk(c.endpoints[j], TransportNames(c.transports))
    {
      var e := c.endpoints[i];
      assert es[..i + 1] == es[..i] + [e.name] && es[i] == e.name;
      if (e.name == "" || e.name in endpointNames || e.transport == "" || e.transport !in transportNames
          || e.root == "") {
        assert e in c.endpoints;
        assert EndpointOk(e, TransportNames(c.transports)) ==> e.name == "" || e.name in endpointNames;
        ok := false;
        return;
      }
      endpointNames := endpointNames + {e.name};
    }
    assert es[..|es|] == es;
  }

  method ValidateRules(c: Config, endpointNames: set<string>) returns (ok: bool)
    requires forall n :: n in endpointNames <==> n in EndpointNames(c.endpoints)
    ensures ok <==> RulesOk(c)
  {
    var ruleNames: set<string> := {};
    ghost var rs := RuleNames(c.rules);
    for i := 0 to |c.rules|
      invariant forall n :: n in ruleNames <==> n in rs[..i]
      invariant Named(rs[..i]) && forall j :: 0 <= j < i ==> RuleOk(c.rules[j], EndpointNames(c.endpoints))
    {
      var r := c.rules[i];
      assert rs[..i + 1] == rs[..i] + [r.name] && rs[i] == r.name;
      if r.name == "" || r.name in ruleNames { return false; }
      assert r in c.rules && (RulesOk(c) ==> RuleOk(r, EndpointNames(c.endpoints)));
      if r.source !in endpointNames || r.target !in endpointNames { return false; }
      if r.source == "" || r.target == "" || r.source == r.target { return false; }
      if r.mode.None? || (r.strategy.Unknown? && r.strategy.text != "") { return false; }
      ruleNames := ruleNames + {r.name};
    }
    assert rs[..|rs|] == rs;
    return true;
  }

  /** The name maps are filled kind by kind; the first offence rejects the configuration. */
  method Validate(c: Config, parses: string -> bool) returns (ok: bool)
    ensures ok <==> Acceptable(c, parses)
  {
    var names: set<string>;
    ok, names := ValidateTransports(c);
    if !ok { return; }
    ok, names := ValidateEndpoints(c, names);
    if !ok { return; }
    ok := ValidateRules(c, names);
    if !ok { return; }
    if c.defaultInterval != "" && !parses(c.defaultInterval) { return false; }
    for i := 0 to |c.rules|
      invariant ok && forall j :: 0 <= j < i && c.rules[j].schedule.Some? ==>
                                    IntervalOk(c.rules[j].schedule.value.interval, parses)
    {
      var schedule := c.rules[i].schedule;
      if schedule.Some? && schedule.value.interval != "" && !parses(schedule.value.interval) { return false; }
    }
  }

  method GetRule(c: Config, name: string) returns (r: Option<RuleConfig>)
    ensures r.None? <==> name !in RuleNames(c.rules)
    ensures r.Some? ==> r.value in c.rules && r.value.name == name
  {
    for i := 0 to |c.rules|
      invariant name !in RuleNames(c.rules)[..i]
    {
      assert RuleNames(c.rules)[i] == c.rules[i].name;
      if c.rules[i].name == name { return Some(c.rules[i]); }
    }
    assert RuleNames(c.rules)[..|c.rules|] == RuleNames(c.rules);
    return None;
  }

  method GetEndpoint(c: Config, name: string) returns (e: Option<Endpoint>)
    ensures e.None? <==> name !in EndpointNames(c.endpoints)
    ensures e.Some? ==> e.value in c.endpoints && e.value.name == name
  {
    for i := 0 to |c.endpoints|
      invariant name !in EndpointNames(c.endpoints)[..i]
    {
      assert EndpointNames(c.endpoints)[i] == c.endpoints[i].name;
      if c.endpoints[i].name == name { return Some(c.endpoints[i]); }
    }
    assert EndpointNames(c.endpoints)[..|c.endpoints|] == EndpointNames(c.endpoints);
    return None;
  }

  method GetTransport(c: Config, name: string) returns (t: Option<Transport>)
    ensures t.None? <==> name !in TransportNames(c.transports)
    ensures t.Some? ==> t.value in c.transports && t.value.name == name
  {
    for i := 0 to |c.transports|
      invariant name !in TransportNames(c.transports)[..i]
    {
      assert TransportNames(c.transports)[i] == c.transports[i].name;
      if c.transports[i].name == name { return Some(c.transports[i]); }
    }
    assert TransportNames(c.transports)[..|c.transports|] == TransportNames(c.transports);
    return None;
  }

  predicate IsScheduled(r: RuleConfig) {
    r.enabled && (r.schedule.Some? ==> r.schedule.value.enabled)
  }

  /** The scheduled rules, in configuration order. */
  function Scheduled(rules: seq<RuleConfig>): seq<RuleConfig> {
    if rules == [] then []
    else Scheduled(rules[..|rules| - 1]) + if IsScheduled(rules[|rules| - 1]) then [rules[|rules| - 1]] else []
  }

  method GetScheduledRules(c: Config) returns (rules: seq<RuleConfig>)
    ensures rules == Scheduled(c.rules)
  {
    rules := [];
    for i := 0 to |c.rules|
      invariant rules == Scheduled(c.rules[..i])
    {
      var r := c.rules[i];
      assert c.rules[..i + 1][..i] == c.rules[..i];
      if !r.enabled { continue; }
      if r.schedule.Some? {
        if r.schedule.value.enabled { rules := rules + [r]; }
      } else {
        rules := rules + [r];
      }
    }
    assert c.rules[..|c.rules|] == c.rules;
  }

  lemma {:induction false} ScheduledMembers(rules: seq<RuleConfig>)
    ensures forall r :: r in Scheduled(rules) <==>
                          r in rules && r.enabled && (r.schedule.None? || r.schedule.value.enabled)
  {
    if rules != [] {
      var n := |rules| - 1;
      ScheduledMembers(rules[..n]);
      assert rules == rules[..n] + [rules[n]];
    }
  }

  /** A scheduled rule comes after exactly the scheduled rules configured before it. */
  lemma {:induction false} ScheduledInOrder(rules: seq<RuleConfig>, i: nat)
    requires i < |rules| && rules[i].enabled && (rules[i].schedule.None? || rules[i].schedule.value.enabled)
    ensures var before := set n | 0 <= n < i && rules[n].enabled
                                  && (rules[n].schedule.None? || rules[n].schedule.value.enabled);
            |before| < |Scheduled(rules)| && Scheduled(rules)[|before|] == rules[i]
  {
    var n := |rules| - 1;
    if i < n {
      ScheduledInOrder(rules[..n], i);
      var before := set k | 0 <= k < i && rules[k].enabled
                            && (rules[k].schedule.None? || rules[k].schedule.value.enabled);
      assert before == set k | 0 <= k < i && rules[..n][k].enabled
                               && (rules[..n][k].schedule.None? || rules[..n][k].schedule.value.enabled);
    } else {
      ScheduledLength(rules[..n]);
      var before := set k | 0 <= k < i && rules[k].enabled
                            && (rules[k].schedule.None? || rules[k].schedule.value.enabled);
      assert before == set k | 0 <= k < n && IsScheduled(rules[..n][k]);
    }
  }

  lemma {:induction false} ScheduledLength(rules: seq<RuleConfig>)
    ensures |Scheduled(rules)| == |set n | 0 <= n < |rules| && IsScheduled(rules[n])|
  {
    var places := set n | 0 <= n < |rules| && IsScheduled(rules[n]);
    if rules == [] {
      assert places == {};
    } else {
      var m := |rules| - 1;
      ScheduledLength(rules[..m]);
      var before := set n | 0 <= n < m && IsScheduled(rules[..m][n]);
      assert places == before + if IsScheduled(rules[m]) then {m} else {};
    }
  }

  lemma RulesUnique(rules: seq<RuleConfig>, r: RuleConfig, x: RuleConfig)
    requires Named(RuleNames(rules)) && r in rules && x in rules && r.name == x.name
    ensures r == x
  {
    var i :| 0 <= i < |rules| && rules[i] == r;
    var j :| 0 <= j < |rules| && rules[j] == x;
    assert RuleNames(rules)[i] == r.name && RuleNames(rules)[j] == x.name;
  }

  /** No other endpoint has its name. */
  lemma OnlyEndpoint(endpoints: seq<Endpoint>, e: Endpoint)
    requires Named(EndpointNames(endpoints)) && e in endpoints
    ensures forall d :: d in endpoints && d.name == e.name ==> d == e
  {
    var names := EndpointNames(endpoints);
    var i :| 0 <= i < |endpoints| && endpoints[i] == e;
    assert names[i] == e.name;
    forall j | 0 <= j < |endpoints| && endpoints[j].name == e.name ensures j == i {
      assert names[j] == e.name;
    }
  }

  lemma OnlyTransport(transports: seq<Transport>, t: Transport)
    requires Named(TransportNames(transports)) && t in transports
    ensures forall u :: u in transports && u.name == t.name ==> u == t
  {
    var names := TransportNames(transports);
    var i :| 0 <= i < |transports| && transports[i] == t;
    assert names[i] == t.name;
    forall j | 0 <= j < |transports| && transports[j].name == t.name ensures j == i {
      assert names[j] == t.name;
    }
  }

  lemma RuleIsNamed(rules: seq<RuleConfig>, r: RuleConfig)
    requires r in rules
    ensures r.name in RuleNames(rules)
  {
    var k :| 0 <= k < |rules| && rules[k] == r;
    assert RuleNames(rules)[k] == r.name;
  }

  /** What planning a rule looks up: the rule by its name, its endpoints, and their transports. In an accepted
      configuration all of them are found, and each is the entry it was meant to be. */
  method LookUp(c: Config, r: RuleConfig, ghost parses: string -> bool)
    returns (rule: Option<RuleConfig>, source: Option<Endpoint>, target: Option<Endpoint>,
             sourceVia: Option<Transport>, targetVia: Option<Transport>)
    requires Acceptable(c, parses) && r in c.rules
    ensures rule == Some(r)
    ensures source.Some? && source.value in c.endpoints && source.value.name == r.source
    ensures target.Some? && target.value in c.endpoints && target.value.name == r.target && target != source
    ensures sourceVia.Some? && sourceVia.value in c.transports && sourceVia.value.name == source.value.transport
    ensures targetVia.Some? && targetVia.value in c.transports && targetVia.value.name == target.value.transport
    ensures forall e :: e in c.endpoints && e.name == r.source ==> Some(e) == source
    ensures forall t :: t in c.transports && t.name == source.value.transport ==> Some(t) == sourceVia
    ensures forall e :: e in c.endpoints && e.name == r.target ==> Some(e) == target
    ensures forall t :: t in c.transports && t.name == target.value.transport ==> Some(t) == targetVia
  {
    RuleIsNamed(c.rules, r);
    rule := GetRule(c, r.name);
    RulesUnique(c.rules, r, rule.value);
    source := GetEndpoint(c, r.source);
    target := GetEndpoint(c, r.target);
    sourceVia := GetTransport(c, source.value.transport);
    targetVia := GetTransport(c, target.value.transport);
    OnlyEndpoint(c.endpoints, source.value);
    OnlyEndpoint(c.endpoints, target.value);
    OnlyTransport(c.transports, sourceVia.value);
    OnlyTransport(c.transports, targetVia.value);
  }
}
