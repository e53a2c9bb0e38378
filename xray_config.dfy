/**
 * The Xray configuration document the launcher writes for a profile (main.py:84-152), the
 * summary shown for a profile (main.py:154-162), and the summary the loader rebuilds from
 * a stored document (main.py:31-44).
 *
 * The document is a datatype, not JSON. An `Option` field is a key that may be missing
 * from a document read back from disk. The loader reads such keys with `[...]`, which
 * raises `KeyError`, or with `.get(..., default)`. An empty rule list (`ip`, `domain`,
 * `inboundTag`) stands for a rule without that key.
 */
module XrayConfig {
  import opened Wrappers

  datatype Inbound = Inbound(tag: string, port: int, listen: string, protocol: string, auth: string)

  datatype User = User(id: string, encryption: string, flow: string)

  /** One `vnext` entry: the remote server. */
  datatype Server = Server(address: Option<string>, port: Option<int>, users: seq<User>)

  datatype OutboundSettings = OutboundSettings(vnext: seq<Server>)

  datatype Reality = Reality(
    serverName: Option<string>,
    publicKey: string,
    shortId: string,
    fingerprint: Option<string>,
    spiderX: string)

  datatype Stream = Stream(network: Option<string>, security: Option<string>, reality: Option<Reality>)

  datatype Outbound = Outbound(
    tag: string,
    protocol: string,
    settings: Option<OutboundSettings>,
    streamSettings: Option<Stream>)

  /** A routing rule: match fields and the outbound that matching traffic goes to. */
  datatype Rule = Rule(
    ruleType: string,
    ip: seq<string>,
    domain: seq<string>,
    network: Option<string>,
    port: Option<string>,
    inboundTag: seq<string>,
    outboundTag: string)

  datatype Routing = Routing(domainStrategy: string, rules: seq<Rule>)

  datatype Config = Config(
    logLevel: string,
    inbounds: seq<Inbound>,
    outbounds: seq<Outbound>,
    routing: Routing)

  /** What a share link describes, after defaults are filled in. */
  datatype Endpoint = Endpoint(
    uuid: string,
    host: string,
    port: int,
    flow: string,
    network: string,
    sni: string,
    publicKey: string,
    shortId: string,
    fingerprint: string)

  /** The profile summary the launcher keeps next to the config file name. */
  datatype Summary = Summary(
    server: string,
    port: int,
    protocol: string,
    security: string,
    network: string,
    sni: string,
    fingerprint: string)

  const SOCKS_TAG := "socks-in"
  const SOCKS_PORT := 10808
  const LOOPBACK := "127.0.0.1"
  const REMOTE_TAG := "vless-reality"
  const DIRECT_TAG := "direct"
  const BLOCK_TAG := "block"

  /** A rule of type `field` that matches everything and sends it to `target`. */
  function FieldRule(target: string): Rule {
    Rule("field", [], [], None, None, [], target)
  }

  /** The six routing rules, in the order the launcher writes them (main.py:131-150). */
  const RULES: seq<Rule> := [
    FieldRule(DIRECT_TAG).(ip := ["geoip:private"]),
    FieldRule(DIRECT_TAG).(domain := ["geosite:private"]),
    FieldRule(BLOCK_TAG).(network := Some("udp"), port := Some("135,137,138,139")),
    FieldRule(BLOCK_TAG).(domain := [
      "geosite:category-ads-all",
      "google-analytics",
      "analytics.yandex",
      "appcenter.ms",
      "app-measurement.com",
      "firebase.io",
      "crashlytics.com"]),
    FieldRule(BLOCK_TAG).(network := Some("udp"), port := Some("443"), ip := ["geoip:!ru"]),
    FieldRule(REMOTE_TAG).(inboundTag := [SOCKS_TAG])
  ]

  /** The rules send traffic direct, then to the block outbound, then to the remote server. */
  lemma RulesInOrder()
    ensures RuleTargets(RULES) == [DIRECT_TAG, DIRECT_TAG, BLOCK_TAG, BLOCK_TAG, BLOCK_TAG, REMOTE_TAG]
    ensures PrecedenceOrdered(RULES)
    ensures RULES[5].inboundTag == [SOCKS_TAG]
    ensures forall i :: 0 <= i < 5 ==> RULES[i].inboundTag == []
  {
    var targets := [DIRECT_TAG, DIRECT_TAG, BLOCK_TAG, BLOCK_TAG, BLOCK_TAG, REMOTE_TAG];
    RuleFields();
    assert RuleTargets(RULES) == targets;
    var ranks := [0, 0, 1, 1, 1, 2];
    assert forall i :: 0 <= i < 6 ==> Rank(targets[i]) == ranks[i];
  }

  /** The target and the inbound list of each rule, one by one. */
  lemma RuleFields()
    ensures |RULES| == 6
    ensures RULES[0].outboundTag == DIRECT_TAG && RULES[1].outboundTag == DIRECT_TAG
    ensures RULES[2].outboundTag == BLOCK_TAG && RULES[3].outboundTag == BLOCK_TAG
    ensures RULES[4].outboundTag == BLOCK_TAG && RULES[5].outboundTag == REMOTE_TAG
    ensures RULES[5].inboundTag == [SOCKS_TAG]
    ensures forall i :: 0 <= i < 5 ==> RULES[i].inboundTag == []
  {
  }

  /** The configuration document for an endpoint (the `config` literal of main.py:84-152). */
  function Synthesise(ep: Endpoint): (c: Config)
    ensures RemoteServer(c) == Some(Server(Some(ep.host), Some(ep.port), [User(ep.uuid, "none", ep.flow)]))
  {
    var remote := Outbound(
      REMOTE_TAG,
      "vless",
      Some(OutboundSettings([Server(Some(ep.host), Some(ep.port), [User(ep.uuid, "none", ep.flow)])])),
      Some(Stream(
        Some(ep.network),
        Some("reality"),
        Some(Reality(Some(ep.sni), ep.publicKey, ep.shortId, Some(ep.fingerprint), "/")))));
    var outbounds := [remote, Outbound(DIRECT_TAG, "freedom", None, None), Outbound(BLOCK_TAG, "blackhole", None, None)];
    Config(
      "info",
      [Inbound(SOCKS_TAG, SOCKS_PORT, LOOPBACK, "socks", "noauth")],
      outbounds,
      Routing("IPIfNonMatch", RULES))
  }

  /**
   * Every synthesised document has the fixed shape, its rules refer only to defined
   * outbounds and inbounds, and they come in bypass, block, default order.
   */
  lemma SynthesisedShape(ep: Endpoint)
    ensures FixedShape(Synthesise(ep))
    ensures RoutesResolve(Synthesise(ep))
    ensures PrecedenceOrdered(Synthesise(ep).routing.rules)
  {
    var c := Synthesise(ep);
    assert OutboundTags(c.outbounds) == [REMOTE_TAG, DIRECT_TAG, BLOCK_TAG];
    assert InboundTags(c.inbounds) == [SOCKS_TAG];
    RulesInOrder();
    RuleTagsKnown();
  }

  /** Each rule goes to one of the three outbounds, and only the listener is named as an inbound. */
  lemma RuleTagsKnown()
    ensures forall r :: r in RULES ==> r.outboundTag in [REMOTE_TAG, DIRECT_TAG, BLOCK_TAG]
    ensures forall r, t :: r in RULES && t in r.inboundTag ==> t == SOCKS_TAG
  {
    RulesInOrder();
    forall r | r in RULES
      ensures r.outboundTag in [REMOTE_TAG, DIRECT_TAG, BLOCK_TAG]
    {
      var k :| 0 <= k < 6 && RULES[k] == r;
      assert r.outboundTag == RuleTargets(RULES)[k];
    }
  }

  /** The summary the parser returns with the document (main.py:154-162). */
  function Summarise(ep: Endpoint): Summary {
    Summary(ep.host, ep.port, "VLESS", "REALITY", ep.network, ep.sni, ep.fingerprint)
  }

  function OutboundTags(outs: seq<Outbound>): (tags: seq<string>)
    ensures |tags| == |outs| && forall i :: 0 <= i < |outs| ==> tags[i] == outs[i].tag
  {
    if outs == [] then [] else [outs[0].tag] + OutboundTags(outs[1..])
  }

  function InboundTags(ins: seq<Inbound>): (tags: seq<string>)
    ensures |tags| == |ins| && forall i :: 0 <= i < |ins| ==> tags[i] == ins[i].tag
  {
    if ins == [] then [] else [ins[0].tag] + InboundTags(ins[1..])
  }

  function RuleTargets(rules: seq<Rule>): (targets: seq<string>)
    ensures |targets| == |rules| && forall i :: 0 <= i < |rules| ==> targets[i] == rules[i].outboundTag
  {
    if rules == [] then [] else [rules[0].outboundTag] + RuleTargets(rules[1..])
  }

  /**
   * The shape every synthesised document has: one unauthenticated SOCKS listener on the
   * loopback address, the remote, direct and block outbounds in that order, and six rules
   * whose last one sends everything from the listener to the remote outbound.
   */
  ghost predicate FixedShape(c: Config) {
    && |c.inbounds| == 1
    && c.inbounds[0].tag == SOCKS_TAG
    && c.inbounds[0].protocol == "socks"
    && c.inbounds[0].listen == LOOPBACK
    && c.inbounds[0].port == SOCKS_PORT
    && c.inbounds[0].auth == "noauth"
    && OutboundTags(c.outbounds) == [REMOTE_TAG, DIRECT_TAG, BLOCK_TAG]
    && c.outbounds[0].protocol == "vless"
    && c.outbounds[1].protocol == "freedom"
    && c.outbounds[2].protocol == "blackhole"
    && RuleTargets(c.routing.rules) == [DIRECT_TAG, DIRECT_TAG, BLOCK_TAG, BLOCK_TAG, BLOCK_TAG, REMOTE_TAG]
    && c.routing.rules[5].inboundTag == [SOCKS_TAG]
  }

  /** Every rule sends traffic to an outbound the document defines, and names only defined inbounds. */
  ghost predicate RoutesResolve(c: Config) {
    && (forall r :: r in c.routing.rules ==> r.outboundTag in OutboundTags(c.outbounds))
    && (forall r, t :: r in c.routing.rules && t in r.inboundTag ==> t in InboundTags(c.inbounds))
  }

  /** Bypass rules come first, then block rules, then the rule to the remote server. */
  function Rank(target: string): nat {
    if target == DIRECT_TAG then 0 else if target == BLOCK_TAG then 1 else 2
  }

  ghost predicate PrecedenceOrdered(rules: seq<Rule>) {
    forall i, j :: 0 <= i < j < |rules| ==> Rank(rules[i].outboundTag) <= Rank(rules[j].outboundTag)
  }

  /** `outbounds[0].settings.vnext[0]`, when the document has it. */
  function RemoteServer(c: Config): Option<Server> {
    if c.outbounds == [] then None
    else match c.outbounds[0].settings
      case None => None
      case Some(s) => if s.vnext == [] then None else Some(s.vnext[0])
  }

  /**
   * The summary the loader rebuilds from a stored document (main.py:31-44), or `None` when
   * a `[...]` lookup fails and the file is skipped. A missing `realitySettings`,
   * `serverName` or `fingerprint` falls back to `""`, `""` and `"chrome"`.
   */
  function Reconstruct(c: Config): Option<Summary> {
    match RemoteServer(c)
    case None => None
    case Some(server) =>
      match c.outbounds[0].streamSettings
      case None => None
      case Some(stream) =>
        if server.address.None? || server.port.None? || stream.security.None? || stream.network.None? then None
        else
          var reality := stream.reality;
          Some(Summary(
            server.address.value,
            server.port.value,
            "VLESS",
            stream.security.value,
            stream.network.value,
            if reality.Some? then reality.value.serverName.GetOr("") else "",
            if reality.Some? then reality.value.fingerprint.GetOr("chrome") else "chrome"))
  }

  /**
   * Reading the summary back from a synthesised document gives the parse-time summary,
   * except that `security` is `"reality"` where the parser says `"REALITY"`.
   */
  lemma SummaryRoundTrip(ep: Endpoint)
    ensures Summarise(ep).security == "REALITY"
    ensures Reconstruct(Synthesise(ep)) == Some(Summarise(ep).(security := "reality"))
  {
  }

  /** A stored document without `realitySettings` reads back with the loader's defaults. */
  lemma ReconstructDefaults(c: Config)
    requires Reconstruct(c).Some?
    requires c.outbounds[0].streamSettings.value.reality.None?
    ensures Reconstruct(c).value.sni == "" && Reconstruct(c).value.fingerprint == "chrome"
  {
  }

  /** A document whose first outbound has no `settings` (like `direct`) is skipped. */
  lemma ReconstructNeedsSettings(c: Config)
    requires c.outbounds != [] && c.outbounds[0].settings.None?
    ensures Reconstruct(c) == None
  {
  }
}
