/** The extension's token-colour merger: the rules built from the user's colour settings
    through the mapping table, and the merge of those rules with the user's existing
    `textMateRules` and the bundled default rules. */
module TokenColors {
  import opened Collections
  import opened Text
  import opened TextMate
  import Sequences

  /** A rule's identity: the scope string itself, or the elements of a list scope joined by `|`
      in their original order. */
  function ScopeKey(s: Scope): (k: string)
    ensures s.Name? ==> k == s.name
    ensures s.Names? && |s.names| == 1 ==> k == s.names[0]
  {
    match s
    case Name(n) => n
    case Names(ns) => Join(ns, "|")
  }

  /** A list scope's key gives the list back, order included, when its elements hold no `|`. */
  lemma ScopeKeyListRoundTrip(ns: seq<string>)
    requires |ns| > 0
    requires forall i | 0 <= i < |ns| :: '|' !in ns[i]
    ensures Split(ScopeKey(Names(ns)), '|') == ns
  {
    SplitJoin(ns, '|');
  }

  /** Two list scopes with the same elements in a different order are different rules. */
  lemma ScopeKeyOrderMatters(a: string, b: string)
    requires a != b
    requires '|' !in a && '|' !in b
    ensures ScopeKey(Names([a, b])) != ScopeKey(Names([b, a]))
  {
    ScopeKeyListRoundTrip([a, b]);
    ScopeKeyListRoundTrip([b, a]);
  }

  /** A one-element list scope and the plain string scope share a key. */
  lemma ScopeKeySingleton(s: string)
    ensures ScopeKey(Names([s])) == ScopeKey(Name(s))
  {
  }

  /** One row of the mapping table: a colour setting and the scope it colours. */
  datatype ScopeMapping = ScopeMapping(configKey: string, scope: Scope)

  /** The mapping table, in source order, in blocks of ten rows. */
  const Rows0: seq<ScopeMapping> := [
    ScopeMapping("comment.banner", Name("comment.block.banner")),
    ScopeMapping("comment.line", Name("comment.line.config")),
    ScopeMapping("numeric.ipv4-AD", Name("constant.numeric.ipv4-AD")),
    ScopeMapping("numeric.ipv6-AD", Name("constant.numeric.ipv6-AD")),
    ScopeMapping("numeric.hex", Name("constant.numeric.hex")),
    ScopeMapping("numeric.integer", Name("constant.numeric.integer")),
    ScopeMapping("interface.async", Name("entity.name.class.interface.async")),
    ScopeMapping("interface.bri", Name("entity.name.class.interface.bri")),
    ScopeMapping("interface.bvi", Name("entity.name.class.interface.bvi")),
    ScopeMapping("interface.app", Name("entity.name.class.interface.app"))
  ]
  const Rows1: seq<ScopeMapping> := [
    ScopeMapping("interface.cellular", Name("entity.name.class.interface.cellular")),
    ScopeMapping("interface.dialer", Name("entity.name.class.interface.dialer")),
    ScopeMapping("interface.ethernet", Name("entity.name.class.interface.ethernet")),
    ScopeMapping("interface.loopback", Name("entity.name.class.interface.loopback")),
    ScopeMapping("interface.management", Name("entity.name.class.interface.management")),
    ScopeMapping("interface.null", Name("entity.name.class.interface.null")),
    ScopeMapping("interface.portchannel", Name("entity.name.class.interface.portchannel")),
    ScopeMapping("interface.serial", Name("entity.name.class.interface.serial")),
    ScopeMapping("interface.tunnel", Name("entity.name.class.interface.tunnel")),
    ScopeMapping("interface.virtual-template", Name("entity.name.class.interface.virtual-template"))
  ]
  const Rows2: seq<ScopeMapping> := [
    ScopeMapping("interface.vlan", Name("entity.name.class.interface.vlan")),
    ScopeMapping("interface.wireless", Name("entity.name.class.interface.wireless")),
    ScopeMapping("interface.atm", Name("entity.name.class.interface.atm")),
    ScopeMapping("interface.bdi", Name("entity.name.class.interface.bdi")),
    ScopeMapping("interface.bundle-ether", Name("entity.name.class.interface.bundle-ether")),
    ScopeMapping("interface.dpt", Name("entity.name.class.interface.dpt")),
    ScopeMapping("interface.embedded-service-engine", Name("entity.name.class.interface.embedded-service-engine")),
    ScopeMapping("interface.fiberchannel", Name("entity.name.class.interface.fiberchannel")),
    ScopeMapping("interface.group-async", Name("entity.name.class.interface.group-async")),
    ScopeMapping("interface.lisp", Name("entity.name.class.interface.lisp"))
  ]
  const Rows3: seq<ScopeMapping> := [
    ScopeMapping("interface.lre", Name("entity.name.class.interface.lre")),
    ScopeMapping("interface.mfr", Name("entity.name.class.interface.mfr")),
    ScopeMapping("interface.multilink", Name("entity.name.class.interface.multilink")),
    ScopeMapping("interface.nve", Name("entity.name.class.interface.nve")),
    ScopeMapping("interface.pos", Name("entity.name.class.interface.pos")),
    ScopeMapping("interface.pseudowire", Name("entity.name.class.interface.pseudowire")),
    ScopeMapping("interface.sdwan", Name("entity.name.class.interface.sdwan")),
    ScopeMapping("interface.service-engine", Name("entity.name.class.interface.service-engine")),
    ScopeMapping("interface.tokenring", Name("entity.name.class.interface.tokenring")),
    ScopeMapping("interface.vasi", Name("entity.name.class.interface.vasi"))
  ]
  const Rows4: seq<ScopeMapping> := [
    ScopeMapping("vrf.declaration", Name("entity.name.class.vrf.declaration")),
    ScopeMapping("acl.access-class.name", Name("entity.name.tag.acl.access-class.name")),
    ScopeMapping("acl.access-group.name", Name("entity.name.tag.acl.access-group.name")),
    ScopeMapping("acl.access-list.name", Name("entity.name.tag.acl.access-list.name")),
    ScopeMapping("bgp.neighbor-peer-group.name", Name("entity.name.tag.bgp.neighbor-peer-group.name")),
    ScopeMapping("bgp.peer-group.name", Name("entity.name.tag.bgp.peer-group.name")),
    ScopeMapping("bgp.peer-policy.name", Name("entity.name.tag.bgp.peer-policy.name")),
    ScopeMapping("bgp.peer-session.name", Name("entity.name.tag.bgp.peer-session.name")),
    ScopeMapping("config-string.domain-name", Name("entity.name.tag.config-string.domain-name")),
    ScopeMapping("config-string.hostname", Name("entity.name.tag.config-string.hostname"))
  ]
  const Rows5: seq<ScopeMapping> := [
    ScopeMapping("config-string.logging-system-message", Name("entity.name.tag.config-string.logging-system-message")),
    ScopeMapping("config-string.username", Name("entity.name.tag.config-string.username")),
    ScopeMapping("config-string.name", Name("entity.name.tag.config-string.name")),
    ScopeMapping("crypto.crypto-map.name", Name("entity.name.tag.crypto.crypto-map.name")),
    ScopeMapping("crypto.transform-set.name", Name("entity.name.tag.crypto.transform-set.name")),
    ScopeMapping("crypto.ipsec-profile.name", Name("entity.name.tag.crypto.ipsec-profile.name")),
    ScopeMapping("crypto.isakmp-profile.name", Name("entity.name.tag.crypto.isakmp-profile.name")),
    ScopeMapping("crypto.keyring.name", Name("entity.name.tag.crypto.keyring.name")),
    ScopeMapping("group.class-map.name", Name("entity.name.tag.group.qos.class-map.name")),
    ScopeMapping("group.qos.class.name", Name("entity.name.tag.group.qos.class.name"))
  ]
  const Rows6: seq<ScopeMapping> := [
    ScopeMapping("group.object-group.name", Name("entity.name.tag.group.security.object-group.name.name")),
    ScopeMapping("group.policy-map.name", Name("entity.name.tag.group.qos.policy-map.name")),
    ScopeMapping("group.pool.name", Name("entity.name.tag.group.resource.pool.name")),
    ScopeMapping("group.prefix-list.name", Name("entity.name.tag.group.routing.prefix-list.name.cisco")),
    ScopeMapping("group.route-map.name", Name("entity.name.tag.group.routing.route-map.name")),
    ScopeMapping("group.service-policy.name", Name("entity.name.tag.group.qos.service-policy.name")),
    ScopeMapping("group.policy-list.name", Name("entity.name.tag.group.resource.policy-list.name")),
    ScopeMapping("group.traffic-filter.name", Name("entity.name.tag.group.traffic.traffic-filter.name")),
    ScopeMapping("group.community.name", Name("entity.name.tag.group.bgp.community.name")),
    ScopeMapping("vrf.vrf-name", Name("entity.name.tag.vrf.vrf-name"))
  ]
  const Rows7: seq<ScopeMapping> := [
    ScopeMapping("vrf.definition", Name("entity.other.vrf.definition")),
    ScopeMapping("vrf.forwarding", Name("entity.other.vrf.forwarding")),
    ScopeMapping("acl.access-list.type", Name("keyword.other.acl.access-list.type")),
    ScopeMapping("acl.access-class.type", Name("keyword.other.acl.access-class.type")),
    ScopeMapping("acl.access-group.type", Name("keyword.other.acl.access-group.type")),
    ScopeMapping("acl.protocol", Name("keyword.other.acl.protocol")),
    ScopeMapping("acl.tcp-flag", Name("keyword.other.acl.tcp-flag")),
    ScopeMapping("acl.icmp-type", Name("keyword.other.acl.icmp-type")),
    ScopeMapping("acl.option", Name("keyword.other.acl.option")),
    ScopeMapping("acl.port-operator", Name("keyword.other.acl.port-operator"))
  ]
  const Rows8: seq<ScopeMapping> := [
    ScopeMapping("address.cidr", Name("keyword.other.address.cidr")),
    ScopeMapping("address.ipv4", Name("keyword.other.address.ipv4.full")),
    ScopeMapping("address.ipv6", Name("keyword.other.address.ipv6.condensed")),
    ScopeMapping("address.ipv6", Name("keyword.other.address.ipv6.full")),
    ScopeMapping("address.mac", Name("keyword.other.address.mac")),
    ScopeMapping("keyword.add-remove.add", Name("keyword.other.config-keyword.add-remove.add")),
    ScopeMapping("keyword.add-remove.except", Name("keyword.other.config-keyword.add-remove.except")),
    ScopeMapping("keyword.add-remove.remove", Name("keyword.other.config-keyword.add-remove.remove")),
    ScopeMapping("keyword.allowed-native", Name("keyword.other.config-keyword.allowed-native")),
    ScopeMapping("keyword.any-all.all", Name("keyword.other.config-keyword.any-all.all"))
  ]
  const Rows9: seq<ScopeMapping> := [
    ScopeMapping("keyword.any-all.any", Name("keyword.other.config-keyword.any-all.any")),
    ScopeMapping("keyword.in-out.in", Name("keyword.other.config-keyword.in-out.in")),
    ScopeMapping("keyword.in-out.out", Name("keyword.other.config-keyword.in-out.out")),
    ScopeMapping("keyword.input-output.input", Name("keyword.other.config-keyword.input-output.input")),
    ScopeMapping("keyword.input-output.output", Name("keyword.other.config-keyword.input-output.output")),
    ScopeMapping("keyword.inside-outside.inside", Name("keyword.other.config-keyword.inside-outside.inside")),
    ScopeMapping("keyword.inside-outside.outside", Name("keyword.other.config-keyword.inside-outside.outside")),
    ScopeMapping("keyword.match.all", Name("keyword.other.config-keyword.match.all")),
    ScopeMapping("keyword.match.any", Name("keyword.other.config-keyword.match.any")),
    ScopeMapping("keyword.deny", Name("keyword.other.config-keyword.permit-deny.deny"))
  ]
  const Rows10: seq<ScopeMapping> := [
    ScopeMapping("keyword.permit", Name("keyword.other.config-keyword.permit-deny.permit")),
    ScopeMapping("keyword.shutdown", Name("keyword.other.config-keyword.shutdown")),
    ScopeMapping("keyword.remark", Name("keyword.other.config-keyword.remark")),
    ScopeMapping("keyword.network-protocols.security-aaa", Name("keyword.other.config-keyword.network-protocols.security-aaa")),
    ScopeMapping("keyword.network-protocols.wireless", Name("keyword.other.config-keyword.network-protocols.wireless")),
    ScopeMapping("keyword.network-protocols.ip-routing", Name("keyword.other.config-keyword.network-protocols.ip-routing")),
    ScopeMapping("keyword.network-protocols.system-logging", Name("keyword.other.config-keyword.network-protocols.system-logging")),
    ScopeMapping("keyword.network-protocols.layer2", Name("keyword.other.config-keyword.network-protocols.layer2")),
    ScopeMapping("keyword.network-protocols.mgmt-interfaces", Name("keyword.other.config-keyword.network-protocols.mgmt-interfaces")),
    ScopeMapping("keyword.config-commands", Name("keyword.other.config-keyword.config-commands"))
  ]
  const Rows11: seq<ScopeMapping> := [
    ScopeMapping("keyword.operational-states", Name("keyword.other.config-keyword.operational-states")),
    ScopeMapping("keyword.control-actions", Name("keyword.other.config-keyword.control-actions")),
    ScopeMapping("keyword.advanced-options", Name("keyword.other.config-keyword.advanced-options")),
    ScopeMapping("keyword.routing-protocols", Name("keyword.other.config-keyword.routing-protocols")),
    ScopeMapping("keyword.status.administratively-down", Name("keyword.other.config-keyword.status.administratively-down")),
    ScopeMapping("keyword.status.deleted", Name("keyword.other.config-keyword.status.deleted")),
    ScopeMapping("keyword.status.down", Name("keyword.other.config-keyword.status.down")),
    ScopeMapping("keyword.status.up", Name("keyword.other.config-keyword.status.up")),
    ScopeMapping("keyword.switchport-mode.access", Name("keyword.other.config-keyword.switchport-mode.access")),
    ScopeMapping("keyword.switchport-mode.dynamic", Name("keyword.other.config-keyword.switchport-mode.dynamic"))
  ]
  const Rows12: seq<ScopeMapping> := [
    ScopeMapping("keyword.switchport-mode.trunk", Name("keyword.other.config-keyword.switchport-mode.trunk")),
    ScopeMapping("keyword.vlan", Name("keyword.other.config-keyword.vlan")),
    ScopeMapping("group.object-group.type", Name("keyword.other.group.object-group.type")),
    ScopeMapping("arp-insp-val", Name("meta.function-call.arp-insp-val")),
    ScopeMapping("command_hostname.config-if", Name("meta.function-call.command_hostname.config-if")),
    ScopeMapping("command_hostname.config-router", Name("meta.function-call.command_hostname.config-router")),
    ScopeMapping("command_hostname.config-line", Name("meta.function-call.command_hostname.config-line")),
    ScopeMapping("config-param.first", Name("meta.function-call.command_hostname.config")),
    ScopeMapping("command_hostname.privileged-mode", Name("meta.function-call.command_hostname.privileged-mode")),
    ScopeMapping("command_hostname.user-mode", Name("meta.function-call.command_hostname.user-mode"))
  ]
  const Rows13: seq<ScopeMapping> := [
    ScopeMapping("command-disable.default", Name("meta.function-call.command-disable.default")),
    ScopeMapping("command-disable.unused", Name("meta.function-call.command-disable.unused")),
    ScopeMapping("separator", Name("punctuation.separator")),
    ScopeMapping("string.description", Name("string.other.description")),
    ScopeMapping("string.password", Name("string.other.password")),
    ScopeMapping("string.remark", Name("string.other.remark")),
    ScopeMapping("string.secret", Name("string.other.secret"))
  ]

  const MappingBlocks: seq<seq<ScopeMapping>> :=
    [Rows0, Rows1, Rows2, Rows3, Rows4, Rows5, Rows6, Rows7, Rows8, Rows9, Rows10, Rows11, Rows12, Rows13]

  function Concat<T>(bs: seq<seq<T>>): seq<T>
    decreases |bs|
  {
    if bs == [] then [] else bs[0] + Concat(bs[1..])
  }

  /** The mapping table, in source order. */
  const ScopeMappings: seq<ScopeMapping> := Concat(MappingBlocks)

  /** `config.get<string>(key)` on the `cisco-config-highlight.colors` section. */
  function Get(config: map<string, string>, key: string): Option<string> {
    if key in config then Some(config[key]) else None
  }

  /** The rule `addColorRule` pushes for one mapping, if its colour is set. */
  function MappingRule(m: ScopeMapping, config: map<string, string>): seq<Rule> {
    var color := Get(config, m.configKey);
    if Truthy(color) then [Rule(m.scope, Settings(color, None))] else []
  }

  /** The rules built from the table `ms`, mapping by mapping. */
  function ColorRules(ms: seq<ScopeMapping>, config: map<string, string>): seq<Rule>
    decreases |ms|
  {
    if ms == [] then [] else ColorRules(ms[..|ms| - 1], config) + MappingRule(ms[|ms| - 1], config)
  }

  /** `addColorRule`: pushes `{scope, settings: {foreground: color}}` when the setting holds a
      non-empty string, and leaves `rules` alone otherwise. */
  method AddColorRule(rules: seq<Rule>, config: map<string, string>, configKey: string, scope: Scope)
    returns (out: seq<Rule>)
    ensures configKey in config && config[configKey] != "" ==>
      out == rules + [Rule(scope, Settings(Some(config[configKey]), None))]
    ensures !(configKey in config && config[configKey] != "") ==> out == rules
  {
    var color := Get(config, configKey);
    out := rules;
    if Truthy(color) {
      out := out + [Rule(scope, Settings(color, None))];
    }
  }

  /** `buildTokenRulesFromConfig`, run over the table `mappings` (the extension passes
      `ScopeMappings`): one rule per row whose colour is set, in table order. */
  method BuildTokenRulesFromConfig(mappings: seq<ScopeMapping>, config: map<string, string>)
    returns (rules: seq<Rule>)
    ensures rules == ColorRules(mappings, config)
  {
    rules := [];
    var i := 0;
    while i < |mappings|
      invariant 0 <= i <= |mappings|
      invariant rules == ColorRules(mappings[..i], config)
    {
      var m := mappings[i];
      rules := AddColorRule(rules, config, m.configKey, m.scope);
      assert mappings[..i + 1][..i] == mappings[..i];
      i := i + 1;
    }
    assert mappings[..i] == mappings;
  }

  lemma {:induction false} ColorRulesAppend(ms: seq<ScopeMapping>, ns: seq<ScopeMapping>, config: map<string, string>)
    ensures ColorRules(ms + ns, config) == ColorRules(ms, config) + ColorRules(ns, config)
    decreases |ns|
  {
    if ns == [] {
      assert ms + ns == ms;
    } else {
      var n := |ns| - 1;
      var s := ms + ns;
      assert s[..|s| - 1] == ms + ns[..n];
      assert s[|s| - 1] == ns[n];
      ColorRulesAppend(ms, ns[..n], config);
      var a, b, c := ColorRules(ms, config), ColorRules(ns[..n], config), MappingRule(ns[n], config);
      assert ColorRules(s, config) == a + b + c;
      assert ColorRules(ns, config) == b + c;
      Sequences.Associate3(a, b, c);
    }
  }

  /** The builder emits exactly the rules `{scope: m.scope, settings: {foreground: c}}` for the
      mappings `m` whose setting holds a non-empty colour `c`, and nothing else. */
  lemma {:induction false} ColorRulesMembership(ms: seq<ScopeMapping>, config: map<string, string>, r: Rule)
    ensures r in ColorRules(ms, config) <==>
      exists i | 0 <= i < |ms| :: ms[i].configKey in config && config[ms[i].configKey] != ""
        && r == Rule(ms[i].scope, Settings(Some(config[ms[i].configKey]), None))
    decreases |ms|
  {
    if ms != [] {
      var n := |ms| - 1;
      ColorRulesMembership(ms[..n], config, r);
      if r in ColorRules(ms[..n], config) {
        var i :| 0 <= i < n && ms[..n][i].configKey in config && config[ms[..n][i].configKey] != ""
          && r == Rule(ms[..n][i].scope, Settings(Some(config[ms[..n][i].configKey]), None));
        assert ms[i] == ms[..n][i];
      }
      if exists i | 0 <= i < |ms| :: (ms[i].configKey in config && config[ms[i].configKey] != ""
        && r == Rule(ms[i].scope, Settings(Some(config[ms[i].configKey]), None)))
      {
        var i :| 0 <= i < |ms| && ms[i].configKey in config && config[ms[i].configKey] != ""
          && r == Rule(ms[i].scope, Settings(Some(config[ms[i].configKey]), None));
        if i < n {
          assert ms[..n][i] == ms[i];
        }
      }
    }
  }

  /** When every setting of the table is set, the builder emits one rule per row, row by row. */
  lemma {:induction false} ColorRulesAllSet(ms: seq<ScopeMapping>, config: map<string, string>)
    requires forall i | 0 <= i < |ms| :: ms[i].configKey in config && config[ms[i].configKey] != ""
    ensures |ColorRules(ms, config)| == |ms|
    ensures forall i | 0 <= i < |ms| ::
      ColorRules(ms, config)[i] == Rule(ms[i].scope, Settings(Some(config[ms[i].configKey]), None))
    decreases |ms|
  {
    if ms != [] {
      var n := |ms| - 1;
      ColorRulesAllSet(ms[..n], config);
    }
  }

  /** With no colour set, the builder emits nothing. */
  lemma {:induction false} ColorRulesNoneSet(ms: seq<ScopeMapping>, config: map<string, string>)
    requires forall i | 0 <= i < |ms| :: !(ms[i].configKey in config && config[ms[i].configKey] != "")
    ensures ColorRules(ms, config) == []
    decreases |ms|
  {
    if ms != [] {
      ColorRulesNoneSet(ms[..|ms| - 1], config);
    }
  }

  /** The rows of `ms` for setting `key`, in order. */
  function RowsFor(ms: seq<ScopeMapping>, key: string): seq<ScopeMapping>
    decreases |ms|
  {
    if ms == [] then [] else (if ms[0].configKey == key then [ms[0]] else []) + RowsFor(ms[1..], key)
  }

  lemma {:induction false} RowsForAppend(ms: seq<ScopeMapping>, ns: seq<ScopeMapping>, key: string)
    ensures RowsFor(ms + ns, key) == RowsFor(ms, key) + RowsFor(ns, key)
    decreases |ms|
  {
    if ms == [] {
      assert ms + ns == ns;
    } else {
      assert (ms + ns)[1..] == ms[1..] + ns;
      assert (ms + ns)[0] == ms[0];
      RowsForAppend(ms[1..], ns, key);
      var h := if ms[0].configKey == key then [ms[0]] else [];
      assert RowsFor(ms + ns, key) == h + (RowsFor(ms[1..], key) + RowsFor(ns, key));
      assert RowsFor(ms, key) == h + RowsFor(ms[1..], key);
      Sequences.Associate3(h, RowsFor(ms[1..], key), RowsFor(ns, key));
    }
  }

  /** The rules one colour `c` yields for the rows `rows`. */
  function RulesWith(rows: seq<ScopeMapping>, c: string): (rs: seq<Rule>)
    ensures |rs| == |rows|
  {
    seq(|rows|, i requires 0 <= i < |rows| => Rule(rows[i].scope, Settings(Some(c), None)))
  }

  /** With a single colour setting `key` set, the builder emits one rule per table row for
      `key`, in table order. */
  lemma {:induction false} ColorRulesSingleSetting(ms: seq<ScopeMapping>, key: string, c: string)
    requires c != ""
    ensures ColorRules(ms, map[key := c]) == RulesWith(RowsFor(ms, key), c)
    decreases |ms|
  {
    if ms != [] {
      ColorRulesAppend([ms[0]], ms[1..], map[key := c]);
      assert [ms[0]] + ms[1..] == ms;
      assert [ms[0]][..0] == [];
      ColorRulesSingleSetting(ms[1..], key, c);
      var head := if ms[0].configKey == key then [ms[0]] else [];
      assert RulesWith(head + RowsFor(ms[1..], key), c) == RulesWith(head, c) + RulesWith(RowsFor(ms[1..], key), c);
    }
  }

  /** `getScopeKey` of each rule, in order. */
  function RuleKeys(rules: seq<Rule>): (ks: seq<string>)
    ensures |ks| == |rules|
    ensures forall i | 0 <= i < |rules| :: ks[i] == ScopeKey(rules[i].scope)
  {
    seq(|rules|, i requires 0 <= i < |rules| => ScopeKey(rules[i].scope))
  }

  /** Each rule paired with its key: the `mergedRulesMap.set(key, rule)` calls for `rules`. */
  function Keyed(rules: seq<Rule>): (ps: seq<(string, Rule)>)
    ensures |ps| == |rules|
    ensures KeysOf(ps) == RuleKeys(rules)
    ensures forall i | 0 <= i < |rules| :: ps[i] == (ScopeKey(rules[i].scope), rules[i])
  {
    seq(|rules|, i requires 0 <= i < |rules| => (ScopeKey(rules[i].scope), rules[i]))
  }

  /** `managedScopeKeys`: the keys of the table's scopes. */
  function ManagedKeys(ms: seq<ScopeMapping>): set<string> {
    set m | m in ms :: ScopeKey(m.scope)
  }

  /** The existing rules whose key is not managed, in order. */
  function Unmanaged(rules: seq<Rule>, managed: set<string>): seq<Rule>
    decreases |rules|
  {
    if rules == [] then []
    else
      var n := |rules| - 1;
      Unmanaged(rules[..n], managed) + (if ScopeKey(rules[n].scope) in managed then [] else [rules[n]])
  }

  /** Every rule the three passes set into the map, in order. */
  function Insertions(existing: seq<Rule>, defaults: seq<Rule>, configured: seq<Rule>, managed: set<string>): seq<Rule> {
    Unmanaged(existing, managed) + defaults + configured
  }

  /** The merged `textMateRules`: the values of the map the three passes fill. */
  function MergedRules(existing: seq<Rule>, defaults: seq<Rule>, configured: seq<Rule>, managed: set<string>): seq<Rule> {
    Values(PutAll(EmptyDict(), Keyed(Insertions(existing, defaults, configured, managed))))
  }

  lemma KeyedSnoc(rules: seq<Rule>, r: Rule)
    ensures Keyed(rules + [r]) == Keyed(rules) + [(ScopeKey(r.scope), r)]
  {
  }

  lemma KeyedAppend(a: seq<Rule>, b: seq<Rule>)
    ensures Keyed(a + b) == Keyed(a) + Keyed(b)
  {
  }

  /** Filling the map from the concatenated insertions is filling it pass by pass. */
  lemma InsertionsInPasses(existing: seq<Rule>, defaults: seq<Rule>, configured: seq<Rule>, managed: set<string>)
    ensures PutAll(EmptyDict(), Keyed(Insertions(existing, defaults, configured, managed)))
      == PutAll(PutAll(PutAll(EmptyDict(), Keyed(Unmanaged(existing, managed))), Keyed(defaults)), Keyed(configured))
  {
    var u := Unmanaged(existing, managed);
    KeyedAppend(u, defaults);
    KeyedAppend(u + defaults, configured);
    PutAllSplit(EmptyDict(), Keyed(u), Keyed(defaults));
    PutAllSplit(EmptyDict(), Keyed(u + defaults), Keyed(configured));
  }

  /** One step of the first pass: an unmanaged existing rule is set, a managed one skipped. */
  lemma UnmanagedStep(existing: seq<Rule>, i: nat, managed: set<string>)
    requires i < |existing|
    ensures var d := PutAll(EmptyDict(), Keyed(Unmanaged(existing[..i], managed)));
      var key := ScopeKey(existing[i].scope);
      PutAll(EmptyDict(), Keyed(Unmanaged(existing[..i + 1], managed)))
        == if key in managed then d else Put(d, key, existing[i])
  {
    var rule := existing[i];
    var key := ScopeKey(rule.scope);
    assert existing[..i + 1][..i] == existing[..i];
    assert Unmanaged(existing[..i + 1], managed)
      == Unmanaged(existing[..i], managed) + (if key in managed then [] else [rule]);
    if key in managed {
      assert Unmanaged(existing[..i], managed) + [] == Unmanaged(existing[..i], managed);
    } else {
      KeyedSnoc(Unmanaged(existing[..i], managed), rule);
      PutAllSnoc(EmptyDict(), Keyed(Unmanaged(existing[..i], managed)), (key, rule));
    }
  }

  /** One step of the second and third passes: the rule is set under its key. */
  lemma KeyedStep(d: Dict<Rule>, rules: seq<Rule>, i: nat)
    requires d.Valid()
    requires i < |rules|
    ensures PutAll(d, Keyed(rules[..i + 1])) == Put(PutAll(d, Keyed(rules[..i])), ScopeKey(rules[i].scope), rules[i])
  {
    assert rules[..i + 1] == rules[..i] + [rules[i]];
    KeyedSnoc(rules[..i], rules[i]);
    PutAllSnoc(d, Keyed(rules[..i]), (ScopeKey(rules[i].scope), rules[i]));
  }

  /** The merge body of `applyTokenColors`: unmanaged existing rules, then the default rules,
      then the configured rules are set into a map keyed by scope key, and the map's values
      become the new `textMateRules`. */
  method MergeRules(existing: seq<Rule>, defaults: seq<Rule>, configured: seq<Rule>, managed: set<string>)
    returns (merged: seq<Rule>)
    ensures merged == MergedRules(existing, defaults, configured, managed)
  {
    var rulesMap: Dict<Rule> := EmptyDict();
    var i := 0;
    while i < |existing|
      invariant 0 <= i <= |existing|
      invariant rulesMap.Valid()
      invariant rulesMap == PutAll(EmptyDict(), Keyed(Unmanaged(existing[..i], managed)))
    {
      var rule := existing[i];
      var key := ScopeKey(rule.scope);
      UnmanagedStep(existing, i, managed);
      if key !in managed {
        rulesMap := Put(rulesMap, key, rule);
      }
      i := i + 1;
    }
    assert existing[..i] == existing;
    ghost var afterExisting := rulesMap;
    i := 0;
    while i < |defaults|
      invariant 0 <= i <= |defaults|
      invariant rulesMap.Valid()
      invariant rulesMap == PutAll(afterExisting, Keyed(defaults[..i]))
    {
      var rule := defaults[i];
      KeyedStep(afterExisting, defaults, i);
      rulesMap := Put(rulesMap, ScopeKey(rule.scope), rule);
      i := i + 1;
    }
    assert defaults[..i] == defaults;
    ghost var afterDefaults := rulesMap;
    i := 0;
    while i < |configured|
      invariant 0 <= i <= |configured|
      invariant rulesMap.Valid()
      invariant rulesMap == PutAll(afterDefaults, Keyed(configured[..i]))
    {
      var rule := configured[i];
      KeyedStep(afterDefaults, configured, i);
      rulesMap := Put(rulesMap, ScopeKey(rule.scope), rule);
      i := i + 1;
    }
    assert configured[..i] == configured;
    InsertionsInPasses(existing, defaults, configured, managed);
    merged := Values(rulesMap);
  }

  /** The last rule of `rules` whose key is `k`. */
  function LastWithKey(rules: seq<Rule>, k: string): (r: Option<Rule>)
    ensures r.Some? ==> ScopeKey(r.value.scope) == k && r.value in rules
    decreases |rules|
  {
    if rules == [] then None
    else
      var n := |rules| - 1;
      if ScopeKey(rules[n].scope) == k then Some(rules[n]) else LastWithKey(rules[..n], k)
  }

  /** The first position of a rule of `rules` whose key is `k`, or `|rules|` if there is none. */
  function FirstPosition(rules: seq<Rule>, k: string): (i: nat)
    ensures i <= |rules|
    ensures i < |rules| ==> ScopeKey(rules[i].scope) == k
    ensures forall j | 0 <= j < i :: ScopeKey(rules[j].scope) != k
    decreases |rules|
  {
    if rules == [] then 0 else if ScopeKey(rules[0].scope) == k then 0 else 1 + FirstPosition(rules[1..], k)
  }

  /** The rule the merge keeps for key `k`: the last configured rule, otherwise the last default
      rule, otherwise the last existing rule provided `k` is not managed. */
  function Winner(existing: seq<Rule>, defaults: seq<Rule>, configured: seq<Rule>, managed: set<string>, k: string): Option<Rule> {
    var c := LastWithKey(configured, k);
    var d := LastWithKey(defaults, k);
    if c.Some? then c
    else if d.Some? then d
    else if k in managed then None
    else LastWithKey(existing, k)
  }

  lemma {:induction false} LastWithKeyPresent(rules: seq<Rule>, k: string)
    ensures LastWithKey(rules, k).Some? <==> k in RuleKeys(rules)
    decreases |rules|
  {
    if rules != [] {
      var n := |rules| - 1;
      LastWithKeyPresent(rules[..n], k);
      assert RuleKeys(rules) == RuleKeys(rules[..n]) + [ScopeKey(rules[n].scope)];
    }
  }

  lemma {:induction false} LastWithKeyAppend(a: seq<Rule>, b: seq<Rule>, k: string)
    ensures LastWithKey(a + b, k) == if LastWithKey(b, k).Some? then LastWithKey(b, k) else LastWithKey(a, k)
    decreases |b|
  {
    if b == [] {
      assert a + b == a;
    } else {
      var n := |b| - 1;
      assert (a + b)[..|a| + n] == a + b[..n];
      LastWithKeyAppend(a, b[..n], k);
    }
  }

  lemma {:induction false} LastWithKeyUnmanaged(existing: seq<Rule>, managed: set<string>, k: string)
    ensures LastWithKey(Unmanaged(existing, managed), k) == if k in managed then None else LastWithKey(existing, k)
    decreases |existing|
  {
    if existing != [] {
      var n := |existing| - 1;
      var r := existing[n];
      LastWithKeyUnmanaged(existing[..n], managed, k);
      var u := Unmanaged(existing[..n], managed);
      if ScopeKey(r.scope) in managed {
        assert u + [] == u;
      } else {
        LastWithKeyAppend(u, [r], k);
        assert [r][..0] == [];
      }
    }
  }

  /** The key-value pairs of `Keyed(rules)` agree with `LastWithKey`. */
  lemma {:induction false} KeyedLast(rules: seq<Rule>, k: string)
    ensures k in KeysOf(Keyed(rules)) <==> LastWithKey(rules, k).Some?
    ensures k in KeysOf(Keyed(rules)) ==> LastValue(Keyed(rules), k) == LastWithKey(rules, k).value
    decreases |rules|
  {
    if rules != [] {
      var n := |rules| - 1;
      var ps := Keyed(rules);
      var p := ps[..n];
      var kn := ScopeKey(rules[n].scope);
      KeyedLast(rules[..n], k);
      assert p == Keyed(rules[..n]);
      assert ps[n] == (kn, rules[n]);
      LastValueSnoc(ps, k);
    }
  }

  /** The merged rules are the map's values: their keys are the map's keys in insertion order,
      and each holds the last rule set under its key. */
  lemma MergedAsMap(existing: seq<Rule>, defaults: seq<Rule>, configured: seq<Rule>, managed: set<string>)
    ensures var ins := Insertions(existing, defaults, configured, managed);
      var d := PutAll(EmptyDict(), Keyed(ins));
      var merged := MergedRules(existing, defaults, configured, managed);
      && RuleKeys(merged) == d.keys
      && (forall k :: k in d.entries <==> LastWithKey(ins, k).Some?)
      && (forall i | 0 <= i < |merged| :: Some(merged[i]) == LastWithKey(ins, d.keys[i]))
  {
    var ins := Insertions(existing, defaults, configured, managed);
    var d := PutAll(EmptyDict(), Keyed(ins));
    var merged := MergedRules(existing, defaults, configured, managed);
    PutAllContents(EmptyDict(), Keyed(ins));
    forall k ensures (k in d.entries <==> LastWithKey(ins, k).Some?)
      && (k in d.entries ==> Some(d.entries[k]) == LastWithKey(ins, k))
    {
      KeyedLast(ins, k);
    }
    assert RuleKeys(merged) == d.keys;
  }

  /** Winner describes the last rule set under a key. */
  lemma WinnerIsLastInsertion(existing: seq<Rule>, defaults: seq<Rule>, configured: seq<Rule>, managed: set<string>, k: string)
    ensures LastWithKey(Insertions(existing, defaults, configured, managed), k) == Winner(existing, defaults, configured, managed, k)
  {
    var u := Unmanaged(existing, managed);
    LastWithKeyAppend(u, defaults, k);
    LastWithKeyAppend(u + defaults, configured, k);
    LastWithKeyUnmanaged(existing, managed, k);
  }

  /** Each key appears at most once in the merged rules. */
  lemma MergedNoDuplicates(existing: seq<Rule>, defaults: seq<Rule>, configured: seq<Rule>, managed: set<string>)
    ensures Distinct(RuleKeys(MergedRules(existing, defaults, configured, managed)))
  {
    MergedAsMap(existing, defaults, configured, managed);
  }

  /** A key is in the output iff an unmanaged existing rule, a default rule or a configured rule
      carries it: unmanaged rules survive, and a managed key survives only through the defaults
      or the settings. */
  lemma MergedPresence(existing: seq<Rule>, defaults: seq<Rule>, configured: seq<Rule>, managed: set<string>, k: string)
    ensures k in RuleKeys(MergedRules(existing, defaults, configured, managed)) <==>
      (k !in managed && k in RuleKeys(existing)) || k in RuleKeys(defaults) || k in RuleKeys(configured)
  {
    MergedAsMap(existing, defaults, configured, managed);
    WinnerIsLastInsertion(existing, defaults, configured, managed, k);
    LastWithKeyPresent(existing, k);
    LastWithKeyPresent(defaults, k);
    LastWithKeyPresent(configured, k);
  }

  /** For every key, the output holds the last configured rule with that key if there is one,
      else the last default rule, else the last existing rule. */
  lemma MergedPrecedence(existing: seq<Rule>, defaults: seq<Rule>, configured: seq<Rule>, managed: set<string>)
    ensures var merged := MergedRules(existing, defaults, configured, managed);
      forall i | 0 <= i < |merged| :: Some(merged[i]) == Winner(existing, defaults, configured, managed, ScopeKey(merged[i].scope))
  {
    MergedAsMap(existing, defaults, configured, managed);
    var merged := MergedRules(existing, defaults, configured, managed);
    forall i | 0 <= i < |merged|
      ensures Some(merged[i]) == Winner(existing, defaults, configured, managed, ScopeKey(merged[i].scope))
    {
      assert RuleKeys(merged)[i] == ScopeKey(merged[i].scope);
      WinnerIsLastInsertion(existing, defaults, configured, managed, ScopeKey(merged[i].scope));
    }
  }

  lemma FirstPositionIsFirstIndex(rules: seq<Rule>, k: string)
    requires k in KeysOf(Keyed(rules))
    ensures FirstPosition(rules, k) == FirstIndex(Keyed(rules), k)
  {
    var a := FirstPosition(rules, k);
    var b := FirstIndex(Keyed(rules), k);
    assert a <= b by {
      assert ScopeKey(rules[b].scope) == k;
    }
  }

  /** The output is in first-insertion order: a key overridden by a later pass keeps the place
      it got when it was first set. */
  lemma MergedOrder(existing: seq<Rule>, defaults: seq<Rule>, configured: seq<Rule>, managed: set<string>)
    ensures var ins := Insertions(existing, defaults, configured, managed);
      var ks := RuleKeys(MergedRules(existing, defaults, configured, managed));
      forall i, j | 0 <= i < j < |ks| :: FirstPosition(ins, ks[i]) < FirstPosition(ins, ks[j]) < |ins|
  {
    var ins := Insertions(existing, defaults, configured, managed);
    MergedAsMap(existing, defaults, configured, managed);
    PutAllContents(EmptyDict(), Keyed(ins));
    var ks := RuleKeys(MergedRules(existing, defaults, configured, managed));
    forall i | 0 <= i < |ks| ensures ks[i] in KeysOf(Keyed(ins)) && FirstPosition(ins, ks[i]) == FirstIndex(Keyed(ins), ks[i]) {
      FirstPositionIsFirstIndex(ins, ks[i]);
    }
  }

  /** The part of `editor.tokenColorCustomizations` the merge reads and writes; `otherSettings`
      stands for its remaining members, which are written back as they were. */
  datatype Customizations = Customizations(textMateRules: Option<seq<Rule>>, otherSettings: map<string, string>)

  /** `currentCustomizations.textMateRules ?? []`. */
  function ExistingRules(current: Customizations): seq<Rule> {
    if current.textMateRules.Some? then current.textMateRules.value else []
  }

  /** The `textMateRules` written back when the table is `ms`. */
  function AppliedRules(ms: seq<ScopeMapping>, current: Customizations, applyAll: bool, fileDefaults: seq<Rule>,
                        config: map<string, string>): seq<Rule> {
    MergedRules(ExistingRules(current), if applyAll then fileDefaults else [], ColorRules(ms, config), ManagedKeys(ms))
  }

  /** `applyTokenColors` without the host calls, over the table `mappings` (the extension's is
      `ScopeMappings`): `current` is the value read for `editor.tokenColorCustomizations`,
      `applyAll` the `applyAllTokenRules` flag, `fileDefaults` what `loadDefaultTokenRules`
      returns, `config` the colour settings; the result is the value written back. */
  method ApplyTokenColors(mappings: seq<ScopeMapping>, current: Customizations, applyAll: bool,
                          fileDefaults: seq<Rule>, config: map<string, string>)
    returns (updated: Customizations)
    ensures updated.otherSettings == current.otherSettings
    ensures updated.textMateRules == Some(AppliedRules(mappings, current, applyAll, fileDefaults, config))
    ensures !applyAll ==> forall k :: k in RuleKeys(updated.textMateRules.value) <==>
      (k !in ManagedKeys(mappings) && k in RuleKeys(ExistingRules(current))) || k in RuleKeys(ColorRules(mappings, config))
  {
    var existingRules := ExistingRules(current);
    var defaultRules := if applyAll then fileDefaults else [];
    var rules := BuildTokenRulesFromConfig(mappings, config);
    var managed := ManagedKeys(mappings);
    var merged := MergeRules(existingRules, defaultRules, rules, managed);
    updated := current.(textMateRules := Some(merged));
    forall k ensures k in RuleKeys(merged) <==>
      (k !in managed && k in RuleKeys(existingRules)) || k in RuleKeys(defaultRules) || k in RuleKeys(rules)
    {
      MergedPresence(existingRules, defaultRules, rules, managed, k);
    }
  }

  /** Every rule the builder emits carries a managed key. */
  lemma ColorRulesManaged(ms: seq<ScopeMapping>, config: map<string, string>)
    ensures forall k | k in RuleKeys(ColorRules(ms, config)) :: k in ManagedKeys(ms)
  {
    forall k | k in RuleKeys(ColorRules(ms, config)) ensures k in ManagedKeys(ms) {
      var rs := ColorRules(ms, config);
      var t :| 0 <= t < |rs| && RuleKeys(rs)[t] == k;
      ColorRulesMembership(ms, config, rs[t]);
    }
  }

  /** With no existing rules, the flag off and a single colour setting that exactly one row of
      the table uses, the output is that row's rule and nothing else. */
  lemma SingleSettingScenario(ms: seq<ScopeMapping>, key: string, c: string, row: ScopeMapping,
                              otherSettings: map<string, string>, fileDefaults: seq<Rule>)
    requires c != ""
    requires RowsFor(ms, key) == [row]
    ensures AppliedRules(ms, Customizations(None, otherSettings), false, fileDefaults, map[key := c])
      == [Rule(row.scope, Settings(Some(c), None))]
  {
    ColorRulesSingleSetting(ms, key, c);
    var r := Rule(row.scope, Settings(Some(c), None));
    assert ColorRules(ms, map[key := c]) == [r];
    MergedSingle(r, ManagedKeys(ms));
  }

  lemma MergedSingle(r: Rule, managed: set<string>)
    ensures MergedRules([], [], [r], managed) == [r]
  {
    assert Insertions([], [], [r], managed) == [r];
    PutAllSnoc(EmptyDict(), [], (ScopeKey(r.scope), r));
    assert [] + [(ScopeKey(r.scope), r)] == Keyed([r]);
  }

  lemma {:induction false} ColorRulesConcat(bs: seq<seq<ScopeMapping>>, i: nat, config: map<string, string>, r: Rule)
    requires i < |bs| && r in ColorRules(bs[i], config)
    ensures r in ColorRules(Concat(bs), config)
    decreases i
  {
    ColorRulesAppend(bs[0], Concat(bs[1..]), config);
    if i > 0 {
      ColorRulesConcat(bs[1..], i - 1, config, r);
    }
  }

  /** The table's `acl.protocol` and `comment.banner` rows, with only `acl.protocol` set to
      `#FF0000`: the output is the single `keyword.other.acl.protocol` rule and `comment.banner`
      yields nothing. */
  lemma AclProtocolScenario(otherSettings: map<string, string>, fileDefaults: seq<Rule>)
    ensures Rows7[5] == ScopeMapping("acl.protocol", Name("keyword.other.acl.protocol"))
    ensures Rows0[0] == ScopeMapping("comment.banner", Name("comment.block.banner"))
    ensures AppliedRules([Rows7[5], Rows0[0]], Customizations(None, otherSettings), false,
                         fileDefaults, map["acl.protocol" := "#FF0000"])
      == [Rule(Name("keyword.other.acl.protocol"), Settings(Some("#FF0000"), None))]
  {
    var acl, banner := Rows7[5], Rows0[0];
    RowsPair(acl, banner, "acl.protocol");
    SingleSettingScenario([acl, banner], "acl.protocol", "#FF0000", acl, otherSettings, fileDefaults);
  }

  lemma RowsPair(a: ScopeMapping, b: ScopeMapping, key: string)
    requires a.configKey == key && b.configKey != key
    ensures RowsFor([a, b], key) == [a]
  {
    assert [a, b][1..] == [b];
    assert [b][1..] == [];
    assert RowsFor([b], key) == [];
    assert RowsFor([a, b], key) == [a] + [];
  }

  /** A rule whose key no table row manages, with nothing configured or defaulted under that
      key, comes through the merge unchanged. */
  lemma ForeignRuleKept(ms: seq<ScopeMapping>, r: Rule, otherSettings: map<string, string>,
                        fileDefaults: seq<Rule>, config: map<string, string>)
    requires ScopeKey(r.scope) !in ManagedKeys(ms)
    ensures r in AppliedRules(ms, Customizations(Some([r]), otherSettings), false, fileDefaults, config)
  {
    var k := ScopeKey(r.scope);
    var configured := ColorRules(ms, config);
    ColorRulesManaged(ms, config);
    LastWithKeyPresent(configured, k);
    LastWithKeyPresent([], k);
    assert [r][..0] == [];
    var merged := MergedRules([r], [], configured, ManagedKeys(ms));
    MergedPresence([r], [], configured, ManagedKeys(ms), k);
    assert RuleKeys([r])[0] == k;
    var t :| 0 <= t < |merged| && RuleKeys(merged)[t] == k;
    MergedPrecedence([r], [], configured, ManagedKeys(ms));
  }

  /** `address.ipv6` has two rows, so its one colour yields two distinct rules. */
  lemma AddressIpv6TwoRules(c: string)
    requires c != ""
    ensures var rs := ColorRules(ScopeMappings, map["address.ipv6" := c]);
      && Rule(Name("keyword.other.address.ipv6.condensed"), Settings(Some(c), None)) in rs
      && Rule(Name("keyword.other.address.ipv6.full"), Settings(Some(c), None)) in rs
  {
    var cfg := map["address.ipv6" := c];
    var condensed := Rule(Name("keyword.other.address.ipv6.condensed"), Settings(Some(c), None));
    var full := Rule(Name("keyword.other.address.ipv6.full"), Settings(Some(c), None));
    Ipv6Rows(c);
    assert MappingBlocks[8] == Rows8;
    ColorRulesConcat(MappingBlocks, 8, cfg, condensed);
    ColorRulesConcat(MappingBlocks, 8, cfg, full);
  }

  lemma Ipv6Rows(c: string)
    requires c != ""
    ensures var rs := ColorRules(Rows8, map["address.ipv6" := c]);
      && Rule(Name("keyword.other.address.ipv6.condensed"), Settings(Some(c), None)) in rs
      && Rule(Name("keyword.other.address.ipv6.full"), Settings(Some(c), None)) in rs
  {
    var cfg := map["address.ipv6" := c];
    assert Rows8[2] == ScopeMapping("address.ipv6", Name("keyword.other.address.ipv6.condensed"));
    assert Rows8[3] == ScopeMapping("address.ipv6", Name("keyword.other.address.ipv6.full"));
    ColorRulesMembership(Rows8, cfg, Rule(Rows8[2].scope, Settings(Some(c), None)));
    ColorRulesMembership(Rows8, cfg, Rule(Rows8[3].scope, Settings(Some(c), None)));
  }

  /** The last rule with key `k` is the one at `i` when no later rule has that key. */
  lemma {:induction false} LastWithKeyAt(rules: seq<Rule>, i: nat, k: string)
    requires i < |rules| && ScopeKey(rules[i].scope) == k
    requires forall j | i < j < |rules| :: ScopeKey(rules[j].scope) != k
    ensures LastWithKey(rules, k) == Some(rules[i])
    decreases |rules|
  {
    var n := |rules| - 1;
    if i < n {
      assert rules[..n][i] == rules[i];
      LastWithKeyAt(rules[..n], i, k);
    }
  }

  /** In the output, the last rule under each key is the one the precedence picks. */
  lemma LastWithKeyOfMerged(existing: seq<Rule>, defaults: seq<Rule>, configured: seq<Rule>, managed: set<string>, k: string)
    ensures LastWithKey(MergedRules(existing, defaults, configured, managed), k) == Winner(existing, defaults, configured, managed, k)
  {
    var merged := MergedRules(existing, defaults, configured, managed);
    MergedNoDuplicates(existing, defaults, configured, managed);
    MergedPresence(existing, defaults, configured, managed, k);
    MergedPrecedence(existing, defaults, configured, managed);
    LastWithKeyPresent(merged, k);
    WinnerIsLastInsertion(existing, defaults, configured, managed, k);
    MergedAsMap(existing, defaults, configured, managed);
    if k in RuleKeys(merged) {
      var i :| 0 <= i < |merged| && RuleKeys(merged)[i] == k;
      forall j | i < j < |merged| ensures ScopeKey(merged[j].scope) != k {
        assert RuleKeys(merged)[j] == ScopeKey(merged[j].scope);
      }
      LastWithKeyAt(merged, i, k);
    }
  }

  lemma {:induction false} InDistinct(rules: seq<Rule>, r: Rule)
    requires Distinct(RuleKeys(rules))
    ensures r in rules <==> LastWithKey(rules, ScopeKey(r.scope)) == Some(r)
  {
    if r in rules {
      var i :| 0 <= i < |rules| && rules[i] == r;
      forall j | i < j < |rules| ensures ScopeKey(rules[j].scope) != ScopeKey(r.scope) {
        assert RuleKeys(rules)[i] != RuleKeys(rules)[j];
      }
      LastWithKeyAt(rules, i, ScopeKey(r.scope));
    }
  }

  /** Feeding the output back in as the existing rules, with the same defaults and settings,
      yields the same rules, each key once; only their order may differ. */
  lemma MergeRerunSameRules(existing: seq<Rule>, defaults: seq<Rule>, configured: seq<Rule>, managed: set<string>)
    ensures var once := MergedRules(existing, defaults, configured, managed);
      var twice := MergedRules(once, defaults, configured, managed);
      && Distinct(RuleKeys(twice))
      && forall r :: r in twice <==> r in once
  {
    var once := MergedRules(existing, defaults, configured, managed);
    var twice := MergedRules(once, defaults, configured, managed);
    MergedNoDuplicates(existing, defaults, configured, managed);
    MergedNoDuplicates(once, defaults, configured, managed);
    forall r ensures r in twice <==> r in once {
      var k := ScopeKey(r.scope);
      InDistinct(once, r);
      InDistinct(twice, r);
      LastWithKeyOfMerged(existing, defaults, configured, managed, k);
      LastWithKeyOfMerged(once, defaults, configured, managed, k);
    }
  }

  /** Every entry of `d` is stored under its own rule's key. */
  ghost predicate SelfKeyed(d: Dict<Rule>) {
    forall k | k in d.entries :: ScopeKey(d.entries[k].scope) == k
  }

  lemma SelfKeyedPutAll(d: Dict<Rule>, rules: seq<Rule>)
    requires d.Valid() && SelfKeyed(d)
    ensures SelfKeyed(PutAll(d, Keyed(rules)))
  {
    PutAllContents(d, Keyed(rules));
    forall k | k in KeysOf(Keyed(rules)) ensures ScopeKey(LastValue(Keyed(rules), k).scope) == k {
      KeyedLast(rules, k);
    }
  }

  /** The keys of a self-keyed map's values, in order, are the map's keys. */
  lemma ValuesKeys(d: Dict<Rule>)
    requires d.Valid() && SelfKeyed(d)
    ensures KeysOf(Keyed(Values(d))) == d.keys
  {
    var vs := Values(d);
    forall i | 0 <= i < |d.keys| ensures KeysOf(Keyed(vs))[i] == d.keys[i] {
      assert d.keys[i] in d.entries;
    }
  }

  /** Refilling an empty map from the values of a self-keyed map gives that map back. */
  lemma RefillValues(d: Dict<Rule>)
    requires d.Valid() && SelfKeyed(d)
    ensures PutAll(EmptyDict(), Keyed(Values(d))) == d
  {
    ValuesKeys(d);
    Rebuild(d, Keyed(Values(d)));
  }

  lemma {:induction false} UnmanagedAppend(a: seq<Rule>, b: seq<Rule>, managed: set<string>)
    ensures Unmanaged(a + b, managed) == Unmanaged(a, managed) + Unmanaged(b, managed)
    decreases |b|
  {
    if b == [] {
      assert a + b == a;
    } else {
      var n := |b| - 1;
      var s := a + b;
      assert s[..|s| - 1] == a + b[..n];
      assert s[|s| - 1] == b[n];
      UnmanagedAppend(a, b[..n], managed);
    }
  }

  lemma {:induction false} UnmanagedAll(rules: seq<Rule>, managed: set<string>)
    requires forall i | 0 <= i < |rules| :: ScopeKey(rules[i].scope) !in managed
    ensures Unmanaged(rules, managed) == rules
    decreases |rules|
  {
    if rules != [] {
      var n := |rules| - 1;
      UnmanagedAll(rules[..n], managed);
      assert rules[..n] + [rules[n]] == rules;
    }
  }

  lemma {:induction false} UnmanagedNone(rules: seq<Rule>, managed: set<string>)
    requires forall i | 0 <= i < |rules| :: ScopeKey(rules[i].scope) in managed
    ensures Unmanaged(rules, managed) == []
    decreases |rules|
  {
    if rules != [] {
      UnmanagedNone(rules[..|rules| - 1], managed);
    }
  }

  lemma {:induction false} UnmanagedKeys(rules: seq<Rule>, managed: set<string>)
    ensures forall k | k in RuleKeys(Unmanaged(rules, managed)) :: k !in managed
    decreases |rules|
  {
    if rules != [] {
      var n := |rules| - 1;
      UnmanagedKeys(rules[..n], managed);
      var u := Unmanaged(rules[..n], managed);
      var tail := if ScopeKey(rules[n].scope) in managed then [] else [rules[n]];
      assert RuleKeys(u + tail) == RuleKeys(u) + RuleKeys(tail);
    }
  }

  lemma PassesSplit(first: seq<Rule>, defaults: seq<Rule>, configured: seq<Rule>)
    ensures PutAll(EmptyDict(), Keyed(first + defaults + configured))
      == PutAll(PutAll(EmptyDict(), Keyed(first)), Keyed(defaults + configured))
  {
    assert first + defaults + configured == first + (defaults + configured);
    KeyedAppend(first, defaults + configured);
    PutAllSplit(EmptyDict(), Keyed(first), Keyed(defaults + configured));
  }

  /** The first pass keeps only unmanaged keys, each holding its own rule. */
  lemma FirstPassUnmanaged(existing: seq<Rule>, managed: set<string>)
    ensures var du := PutAll(EmptyDict(), Keyed(Unmanaged(existing, managed)));
      SelfKeyed(du) && forall k | k in du.entries :: k !in managed
  {
    var u := Unmanaged(existing, managed);
    SelfKeyedPutAll(EmptyDict(), u);
    PutAllKeys(EmptyDict(), Keyed(u));
    UnmanagedKeys(existing, managed);
  }

  /** A self-keyed map whose unmanaged keys all come first: its unmanaged values are that
      front part. */
  lemma UnmanagedOfValues(d: Dict<Rule>, n: nat, managed: set<string>)
    requires d.Valid() && SelfKeyed(d) && n <= |d.keys|
    requires forall i | 0 <= i < n :: d.keys[i] !in managed
    requires forall i | n <= i < |d.keys| :: d.keys[i] in managed
    ensures Unmanaged(Values(d), managed) == Values(d)[..n]
  {
    var vs := Values(d);
    assert vs == vs[..n] + vs[n..];
    UnmanagedAppend(vs[..n], vs[n..], managed);
    forall i | 0 <= i < n ensures ScopeKey(vs[..n][i].scope) !in managed {
      assert d.keys[i] in d.entries;
    }
    UnmanagedAll(vs[..n], managed);
    forall i | 0 <= i < |vs| - n ensures ScopeKey(vs[n..][i].scope) in managed {
      assert d.keys[n + i] in d.entries;
    }
    UnmanagedNone(vs[n..], managed);
    assert vs[..n] + [] == vs[..n];
  }

  /** With managed defaults and configured rules, the unmanaged rules of the output are the
      values the first pass left. */
  lemma UnmanagedOfMerged(existing: seq<Rule>, defaults: seq<Rule>, configured: seq<Rule>, managed: set<string>)
    requires forall k | k in RuleKeys(defaults) :: k in managed
    requires forall k | k in RuleKeys(configured) :: k in managed
    ensures Unmanaged(MergedRules(existing, defaults, configured, managed), managed)
      == Values(PutAll(EmptyDict(), Keyed(Unmanaged(existing, managed))))
  {
    var u := Unmanaged(existing, managed);
    var du := PutAll(EmptyDict(), Keyed(u));
    var ps := Keyed(defaults + configured);
    PassesSplit(u, defaults, configured);
    FirstPassUnmanaged(existing, managed);
    assert forall k | k in KeysOf(ps) :: k in managed by {
      assert KeysOf(ps) == RuleKeys(defaults) + RuleKeys(configured);
    }
    var d := PutAll(du, ps);
    SelfKeyedPutAll(du, defaults + configured);
    ValuesPrefix(du, ps);
    PutAllKeys(du, ps);
    var n := |du.keys|;
    forall i | 0 <= i < n ensures d.keys[i] !in managed {
      assert d.keys[i] == du.keys[i];
      assert du.keys[i] in du.entries;
    }
    UnmanagedOfValues(d, n, managed);
  }

  /** Running the merge on its own output, with the same defaults and settings, changes nothing
      when every default and configured rule carries a managed key. */
  lemma MergeIdempotent(existing: seq<Rule>, defaults: seq<Rule>, configured: seq<Rule>, managed: set<string>)
    requires forall k | k in RuleKeys(defaults) :: k in managed
    requires forall k | k in RuleKeys(configured) :: k in managed
    ensures MergedRules(MergedRules(existing, defaults, configured, managed), defaults, configured, managed)
      == MergedRules(existing, defaults, configured, managed)
  {
    var du := PutAll(EmptyDict(), Keyed(Unmanaged(existing, managed)));
    UnmanagedOfMerged(existing, defaults, configured, managed);
    FirstPassUnmanaged(existing, managed);
    RefillValues(du);
    PassesSplit(Values(du), defaults, configured);
    PassesSplit(Unmanaged(existing, managed), defaults, configured);
  }

  lemma MergeTwo(r1: Rule, r2: Rule)
    requires ScopeKey(r1.scope) != ScopeKey(r2.scope)
    ensures Values(PutAll(EmptyDict(), Keyed([r1, r2]))) == [r1, r2]
  {
    var e: Dict<Rule> := EmptyDict();
    var p1, p2 := (ScopeKey(r1.scope), r1), (ScopeKey(r2.scope), r2);
    assert Keyed([r1, r2]) == [p1, p2];
    PutAllSnoc(e, [], p1);
    PutAllSnoc(e, [p1], p2);
    assert [] + [p1] == [p1];
    assert [p1] + [p2] == [p1, p2];
  }

  lemma MergeTwoAgain(r1: Rule, r2: Rule)
    requires ScopeKey(r1.scope) != ScopeKey(r2.scope)
    ensures Values(PutAll(EmptyDict(), Keyed([r2, r1, r2]))) == [r2, r1]
  {
    var e: Dict<Rule> := EmptyDict();
    var p1, p2 := (ScopeKey(r1.scope), r1), (ScopeKey(r2.scope), r2);
    assert Keyed([r2, r1, r2]) == [p2, p1, p2];
    PutAllSnoc(e, [], p2);
    PutAllSnoc(e, [p2], p1);
    PutAllSnoc(e, [p2, p1], p2);
    assert [] + [p2] == [p2];
    assert [p2] + [p1] == [p2, p1];
    assert [p2, p1] + [p2] == [p2, p1, p2];
  }

  /** Without the managed-keys condition a rerun may reorder: a default rule under an
      unmanaged key survives the first pass of the second run and moves to the front. */
  lemma MergeRerunReorders()
    ensures var r1 := Rule(Name("a"), Settings(Some("#111111"), None));
      var r2 := Rule(Name("b"), Settings(Some("#222222"), None));
      && MergedRules([], [r1, r2], [], {"a"}) == [r1, r2]
      && MergedRules([r1, r2], [r1, r2], [], {"a"}) == [r2, r1]
  {
    var r1 := Rule(Name("a"), Settings(Some("#111111"), None));
    var r2 := Rule(Name("b"), Settings(Some("#222222"), None));
    assert Unmanaged([r1, r2], {"a"}) == [r2] by {
      assert [r1, r2][..1] == [r1];
      assert Unmanaged([r1], {"a"}) == [];
    }
    assert Insertions([], [r1, r2], [], {"a"}) == [r1, r2];
    assert Insertions([r1, r2], [r1, r2], [], {"a"}) == [r2, r1, r2];
    MergeTwo(r1, r2);
    MergeTwoAgain(r1, r2);
  }
}
