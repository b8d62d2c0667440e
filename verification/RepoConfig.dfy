/** Bringing the caller's configuration into the repository:
    `updateConfig` (src/ipfs_bindings/ipfs_config.go), `initRepo` and `openRepo`
    (src/ipfs_bindings/ipfs_repo.go). */
module RepoConfig {
  import opened Wrappers
  import opened Multiaddr
  import opened PortRewrite
  import opened AddressRewrite
  import opened AddressStability

  /** config.Swarm, its connection manager and its relay. */
  datatype SwarmSettings = SwarmSettings(
    lowWater: int, highWater: int, gracePeriod: string, autoRelay: bool, relayHop: bool, relay: bool)

  datatype AutoNat = AutoNat(enabled: bool, throttle: Option<(int, int)>)

  /** The part of go-ipfs' configuration that is looked at; `rest` stands for
      all else. */
  datatype ConfigValue = ConfigValue(
    settings: SwarmSettings, routingType: string, storageMax: string, autoNat: AutoNat,
    swarm: seq<string>, api: seq<string>, gateway: seq<string>,
    bootstrap: seq<string>, peering: seq<string>, rest: string)

  datatype AsioConfig = AsioConfig(
    lowWater: int, highWater: int, gracePeriod: string, autoRelay: bool, relayHop: bool,
    bootstrap: seq<string>, peering: seq<string>, swarmPort: int, apiAddress: string, gatewayAddress: string,
    defaultProfile: string, storageMax: string, autoNat: bool, autoNatLimit: int, autoNatPeerLimit: int,
    swarmKey: string, routingType: string)

  /** The libraries' parsers: multiaddrs, the two kinds of peer lists, profiles. */
  datatype Library = Library(
    table: Table,
    parseBootstrap: seq<string> -> Option<seq<string>>,
    parsePeering: seq<string> -> Option<seq<string>>,
    profile: (string, ConfigValue) -> Option<ConfigValue>)

  function CopiedFields(v: ConfigValue, c: AsioConfig): ConfigValue {
    v.(settings := SwarmSettings(c.lowWater, c.highWater, c.gracePeriod, c.autoRelay, c.relayHop, true),
       routingType := c.routingType, storageMax := c.storageMax,
       autoNat := AutoNat(c.autoNat, Some((c.autoNatLimit, c.autoNatPeerLimit))))
  }

  /** Empty lists leave the defaults. */
  function Bootstrap(lib: Library, present: seq<string>, c: AsioConfig): Option<seq<string>> {
    if c.bootstrap == [] then Some(present) else lib.parseBootstrap(c.bootstrap)
  }

  function Peering(lib: Library, present: seq<string>, c: AsioConfig): Option<seq<string>> {
    if c.peering == [] then Some(present) else lib.parsePeering(c.peering)
  }

  /** The configuration that updateConfig is for. */
  function Updated(lib: Library, v: ConfigValue, c: AsioConfig): Result<ConfigValue, ()>
  {
    var swarm := RewriteAddresses(lib.table, v.swarm, c.swarmPort);
    var bootstrap, peering := Bootstrap(lib, v.bootstrap, c), Peering(lib, v.peering, c);
    if swarm.Err? || bootstrap.None? || peering.None? then Err(())
    else Ok(CopiedFields(v, c).(
      swarm := swarm.value,
      api := if c.apiAddress == "" then [] else [c.apiAddress],
      gateway := if c.gatewayAddress == "" then [] else [c.gatewayAddress],
      bootstrap := bootstrap.value, peering := peering.value))
  }

  /** An update succeeds iff every address can be rewritten and both peer lists
      that were given parse. */
  lemma UpdatedSucceeds(lib: Library, v: ConfigValue, c: AsioConfig)
    ensures Updated(lib, v, c).Ok? <==>
            && (forall k :: 0 <= k < |v.swarm| ==> RewriteAddress(lib.table, v.swarm[k], c.swarmPort).Ok?)
            && (c.bootstrap == [] || lib.parseBootstrap(c.bootstrap).Some?)
            && (c.peering == [] || lib.parsePeering(c.peering).Some?)
  {}

  /** What a configuration says after a successful update, field by field: the
      stored one is `v`, the caller's is `c`. */
  lemma UpdatedFields(lib: Library, v: ConfigValue, c: AsioConfig)
    requires Updated(lib, v, c).Ok?
    ensures var w := Updated(lib, v, c).value;
      && w.settings.lowWater == c.lowWater && w.settings.highWater == c.highWater
      && w.settings.gracePeriod == c.gracePeriod
      && w.settings.autoRelay == c.autoRelay && w.settings.relayHop == c.relayHop && w.settings.relay
      && w.routingType == c.routingType && w.storageMax == c.storageMax
      && w.autoNat.enabled == c.autoNat && w.autoNat.throttle == Some((c.autoNatLimit, c.autoNatPeerLimit))
      && w.api == (if c.apiAddress == "" then [] else [c.apiAddress])
      && w.gateway == (if c.gatewayAddress == "" then [] else [c.gatewayAddress])
      && (if c.bootstrap == [] then w.bootstrap == v.bootstrap else Some(w.bootstrap) == lib.parseBootstrap(c.bootstrap))
      && (if c.peering == [] then w.peering == v.peering else Some(w.peering) == lib.parsePeering(c.peering))
      && w.rest == v.rest
      && |w.swarm| == |v.swarm|
      && forall k :: 0 <= k < |v.swarm| ==> RewriteAddress(lib.table, v.swarm[k], c.swarmPort) == Ok(w.swarm[k])
  {}

  class Config {
    var settings: SwarmSettings
    var routingType: string
    var storageMax: string
    var autoNat: AutoNat
    var swarm: array<string>
    var api: seq<string>
    var gateway: seq<string>
    var bootstrap: seq<string>
    var peering: seq<string>
    var rest: string

    ghost function Abs(): ConfigValue
      reads this, swarm
    {
      ConfigValue(settings, routingType, storageMax, autoNat, swarm[..], api, gateway, bootstrap, peering, rest)
    }

    constructor (v: ConfigValue)
      ensures fresh(swarm) && Abs() == v
    {
      settings, routingType, storageMax, autoNat := v.settings, v.routingType, v.storageMax, v.autoNat;
      swarm := new string[|v.swarm|](k requires 0 <= k < |v.swarm| => v.swarm[k]);
      api, gateway, bootstrap, peering, rest := v.api, v.gateway, v.bootstrap, v.peering, v.rest;
      new;
      assert swarm[..] == v.swarm;
    }

    /** Clone copies deeply: the swarm addresses go to an array of their own. */
    method Clone() returns (c: Config)
      ensures fresh(c) && fresh(c.swarm) && c.Abs() == Abs()
    {
      c := new Config(ConfigValue(settings, routingType, storageMax, autoNat, swarm[..], api, gateway,
                                  bootstrap, peering, rest));
    }

    /** updateConfig, the fields that are copied. */
    method CopyFields(c: AsioConfig)
      modifies this`settings, this`routingType, this`storageMax, this`autoNat
      ensures Abs() == CopiedFields(old(Abs()), c)
    {
      settings := settings.(lowWater := c.lowWater, highWater := c.highWater, gracePeriod := c.gracePeriod);
      settings := settings.(autoRelay := c.autoRelay, relayHop := c.relayHop, relay := true);
      routingType := c.routingType;
      storageMax := c.storageMax;
      autoNat := AutoNat(c.autoNat, Some((c.autoNatLimit, c.autoNatPeerLimit)));
    }

    /** updateConfig, the lists of peers. */
    method UpdatePeers(lib: Library, c: AsioConfig) returns (ok: bool)
      modifies this`bootstrap, this`peering
      ensures ok <==> Bootstrap(lib, old(bootstrap), c).Some? && Peering(lib, old(peering), c).Some?
      ensures ok ==> Some(bootstrap) == Bootstrap(lib, old(bootstrap), c)
      ensures ok ==> Some(peering) == Peering(lib, old(peering), c)
    {
      if c.bootstrap != [] {
        var ps := lib.parseBootstrap(c.bootstrap);
        if ps.None? { return false; }
        bootstrap := ps.value;
      }
      if c.peering != [] {
        var ps := lib.parsePeering(c.peering);
        if ps.None? { return false; }
        peering := ps.value;
      }
      ok := true;
    }

    /** updateConfig, after the swarm addresses. */
    method UpdateLists(lib: Library, c: AsioConfig) returns (ok: bool)
      modifies this`api, this`gateway, this`bootstrap, this`peering
      ensures ok <==> Bootstrap(lib, old(bootstrap), c).Some? && Peering(lib, old(peering), c).Some?
      ensures ok ==> Some(bootstrap) == Bootstrap(lib, old(bootstrap), c)
      ensures ok ==> Some(peering) == Peering(lib, old(peering), c)
      ensures api == (if c.apiAddress == "" then [] else [c.apiAddress])
      ensures gateway == (if c.gatewayAddress == "" then [] else [c.gatewayAddress])
    {
      api := if c.apiAddress == "" then [] else [c.apiAddress];
      gateway := if c.gatewayAddress == "" then [] else [c.gatewayAddress];
      ok := UpdatePeers(lib, c);
    }

    /** updateConfig. An error leaves the fields as far as they were assigned. */
    method Update(lib: Library, c: AsioConfig) returns (ok: bool)
      modifies this, swarm
      ensures swarm == old(swarm)
      ensures ok <==> Updated(lib, old(Abs()), c).Ok?
      ensures ok ==> Abs() == Updated(lib, old(Abs()), c).value
      ensures ok ==> settings.lowWater == c.lowWater && settings.highWater == c.highWater
      ensures ok ==> settings.gracePeriod == c.gracePeriod
      ensures ok ==> settings.autoRelay == c.autoRelay && settings.relayHop == c.relayHop && settings.relay
      ensures ok ==> routingType == c.routingType && storageMax == c.storageMax
      ensures ok ==> autoNat.enabled == c.autoNat && autoNat.throttle == Some((c.autoNatLimit, c.autoNatPeerLimit))
      ensures ok ==> api == (if c.apiAddress == "" then [] else [c.apiAddress])
      ensures ok ==> gateway == (if c.gatewayAddress == "" then [] else [c.gatewayAddress])
      ensures ok ==> Some(bootstrap) == if c.bootstrap == [] then Some(old(bootstrap)) else lib.parseBootstrap(c.bootstrap)
      ensures ok ==> Some(peering) == if c.peering == [] then Some(old(peering)) else lib.parsePeering(c.peering)
      ensures ok ==> rest == old(rest)
      ensures ok ==> forall k :: 0 <= k < swarm.Length ==>
                RewriteAddress(lib.table, old(swarm[..])[k], c.swarmPort) == Ok(swarm[k])
    {
      ghost var was := Abs();
      CopyFields(c);
      var replaced, _ := ReplacePorts(lib.table, swarm, c.swarmPort);
      if !replaced { return false; }
      ok := UpdateLists(lib, c);
      if ok { UpdatedFields(lib, was, c); }
    }
  }

  // ----- Idempotence -------------------------------------------------------

  /** Updating again changes nothing exactly when rewriting the swarm addresses
      again changes nothing: all else depends on the caller's config alone. */
  lemma UpdateIsStableExactly(lib: Library, v: ConfigValue, c: AsioConfig)
    requires Updated(lib, v, c).Ok?
    ensures var w := Updated(lib, v, c).value;
      Updated(lib, w, c) == Ok(w) <==> RewriteAddresses(lib.table, w.swarm, c.swarmPort) == Ok(w.swarm)
  {}

  /** The addresses are those of `css`, as the library itself would print them. */
  ghost predicate CanonicalTexts(table: Table, addrs: seq<string>, css: seq<seq<Component>>) {
    |css| == |addrs| && forall k :: 0 <= k < |css| ==> Canonical(table, css[k]) && addrs[k] == Render(css[k])
  }

  /** replacePorts sets every port in each of these addresses. */
  ghost predicate AllSetPorts(table: Table, css: seq<seq<Component>>, newPort: int)
    requires forall cs :: cs in css ==> AllStructured(table, cs)
  {
    forall cs :: cs in css ==> SetsPorts(table, cs, newPort)
  }

  ghost predicate AllClean(table: Table, css: seq<seq<Component>>, newPort: int)
    requires forall cs :: cs in css ==> AllStructured(table, cs)
  {
    forall cs :: cs in css ==> Clean(table, cs, newPort)
  }

  lemma AddressesStableExactly(table: Table, addrs: seq<string>, css: seq<seq<Component>>, newPort: int)
    requires IsPortNumber(newPort) && CanonicalTexts(table, addrs, css)
    requires RewriteAddresses(table, addrs, newPort).Ok?
    ensures var w := RewriteAddresses(table, addrs, newPort).value;
      RewriteAddresses(table, w, newPort) == Ok(w) <==> newPort == 0 || AllSetPorts(table, css, newPort)
  {
    var w := RewriteAddresses(table, addrs, newPort).value;
    forall k | 0 <= k < |w|
      ensures RewriteAddress(table, w[k], newPort) == Ok(w[k]) <==> newPort == 0 || SetsPorts(table, css[k], newPort)
    {
      RewritingIsStableExactly(table, css[k], newPort);
    }
    if newPort == 0 || AllSetPorts(table, css, newPort) {
      assert forall k :: 0 <= k < |w| ==> css[k] in css;
      assert RewriteAddresses(table, w, newPort).value == w;
    }
  }

  /** An update that succeeded can be repeated without effect if and only if it
      set every port of the swarm addresses, or set them to 0. */
  lemma UpdateIsIdempotentExactly(lib: Library, v: ConfigValue, c: AsioConfig, css: seq<seq<Component>>)
    requires IsPortNumber(c.swarmPort) && CanonicalTexts(lib.table, v.swarm, css)
    requires Updated(lib, v, c).Ok?
    ensures Updated(lib, Updated(lib, v, c).value, c) == Updated(lib, v, c)
       <==> c.swarmPort == 0 || AllSetPorts(lib.table, css, c.swarmPort)
  {
    AddressesStableExactly(lib.table, v.swarm, css, c.swarmPort);
    UpdateIsStableExactly(lib, v, c);
  }

  /** What that comes to on the addresses themselves: it suffices that none has
      a clash, and where no port goes on after the new one it is necessary. */
  lemma IdempotentUnlessClash(lib: Library, v: ConfigValue, c: AsioConfig, css: seq<seq<Component>>)
    requires IsPortNumber(c.swarmPort) && CanonicalTexts(lib.table, v.swarm, css)
    requires Updated(lib, v, c).Ok?
    ensures AllClean(lib.table, css, c.swarmPort) ==>
              Updated(lib, Updated(lib, v, c).value, c) == Updated(lib, v, c)
    ensures (forall cs :: cs in css ==> NoPortExtends(lib.table, cs, c.swarmPort)) ==>
              (Updated(lib, Updated(lib, v, c).value, c) == Updated(lib, v, c)
               <==> c.swarmPort == 0 || AllClean(lib.table, css, c.swarmPort))
  {
    UpdateIsIdempotentExactly(lib, v, c, css);
    forall cs | cs in css
      ensures Clean(lib.table, cs, c.swarmPort) ==> SetsPorts(lib.table, cs, c.swarmPort)
      ensures NoPortExtends(lib.table, cs, c.swarmPort) ==>
                (SetsPorts(lib.table, cs, c.swarmPort) <==> Clean(lib.table, cs, c.swarmPort))
    {
      SetsPortsUnlessClash(lib.table, cs, c.swarmPort);
    }
  }

  /** Over a clashing address it cannot. */
  lemma ClashingUpdateIsNotIdempotent(lib: Library, v: ConfigValue, c: AsioConfig)
    requires v.swarm == [Render(TcpPair(1, 12))] && c.swarmPort == 5 && Updated(lib, v, c).Ok?
    ensures Updated(lib, Updated(lib, v, c).value, c) != Updated(lib, v, c)
  {
    ClashingAddressIsNotStable(lib.table);
    var w := Updated(lib, v, c).value;
    assert w.swarm[0] == Render(TcpPair(5, 52));
    assert RewriteAddress(lib.table, w.swarm[0], 5) != Ok(w.swarm[0]);
    UpdateIsStableExactly(lib, v, c);
  }

  // ----- The repository ----------------------------------------------------

  /** The results of the file operations that one call makes. */
  datatype Io = Io(open: bool, readConfig: bool, clone: bool, setConfig: bool, writeKey: bool)

  class Repo {
    var config: Config
    var swarmKey: Option<string>

    constructor (config: Config)
      ensures this.config == config && swarmKey == None
    {
      this.config, swarmKey := config, None;
    }

    /** updateRepo. */
    method WriteKey(c: AsioConfig, works: bool) returns (ok: bool)
      modifies this`swarmKey
      ensures ok <==> c.swarmKey == "" || works
      ensures swarmKey == if c.swarmKey != "" && works then Some(c.swarmKey) else old(swarmKey)
    {
      if c.swarmKey == "" { return true; }
      if !works { return false; }
      swarmKey := Some(c.swarmKey);
      ok := true;
    }
  }

  /** openRepo gets as far as SetConfig, and that works. */
  predicate Commits(lib: Library, v: ConfigValue, c: AsioConfig, io: Io, unlocked: bool) {
    io.open && io.readConfig && io.clone && unlocked && Updated(lib, v, c).Ok? && io.setConfig
  }

  /** What openRepo leaves stored, and whether it succeeds. */
  function StoredAfterOpen(lib: Library, v: ConfigValue, c: AsioConfig, io: Io, unlocked: bool): ConfigValue {
    if Commits(lib, v, c, io, unlocked) then Updated(lib, v, c).value else v
  }

  /** openRepo. The stored configuration is replaced as a whole or not at all;
      neither its fields nor its addresses are ever written to, and with the
      lock file present it stays. */
  method OpenRepo(lib: Library, repo: Repo, c: AsioConfig, io: Io, unlocked: bool) returns (ok: bool)
    modifies repo
    ensures repo.config.Abs() == StoredAfterOpen(lib, old(repo.config.Abs()), c, io, unlocked)
    ensures !Commits(lib, old(repo.config.Abs()), c, io, unlocked) ==>
              repo.config == old(repo.config) && repo.swarmKey == old(repo.swarmKey)
    ensures !unlocked ==> repo.config == old(repo.config) && repo.swarmKey == old(repo.swarmKey)
    ensures repo.config != old(repo.config) ==> unlocked && Ok(repo.config.Abs()) == Updated(lib, old(repo.config.Abs()), c)
    ensures ok && unlocked ==> Ok(repo.config.Abs()) == Updated(lib, old(repo.config.Abs()), c)
    ensures repo.swarmKey != old(repo.swarmKey) ==> repo.swarmKey == Some(c.swarmKey)
    ensures ok && unlocked ==> repo.swarmKey == if c.swarmKey == "" then old(repo.swarmKey) else Some(c.swarmKey)
    ensures ok <==>
            && io.open && io.readConfig && io.clone
            && (unlocked ==> Updated(lib, old(repo.config.Abs()), c).Ok? && io.setConfig
                             && (c.swarmKey == "" || io.writeKey))
    ensures repo.config != old(repo.config) ==> io.open && io.readConfig && io.clone && io.setConfig
  {
    if !io.open || !io.readConfig { return false; }
    var conf := repo.config;
    if !io.clone { return false; }
    conf := conf.Clone();
    if !unlocked { return true; }
    var updated := conf.Update(lib, c);
    if !updated { return false; }
    if !io.setConfig { return false; }
    repo.config := conf;
    ok := repo.WriteKey(c, io.writeKey);
  }

  /** initRepo, from the configuration made for a new identity. `null` is
      returned when no repository was made; one is there even if writing the
      key then fails. */
  method InitRepo(lib: Library, fresh0: ConfigValue, c: AsioConfig, exists0: bool, init: bool, writeKey: bool)
    returns (repo: Repo?, ok: bool)
    ensures repo != null ==> fresh(repo) && fresh(repo.config) && fresh(repo.config.swarm)
    ensures repo != null ==>
              var v := if c.defaultProfile == "" then Some(fresh0) else lib.profile(c.defaultProfile, fresh0);
              v.Some? && Ok(repo.config.Abs()) == Updated(lib, v.value, c)
    ensures repo != null <==>
              var v := if c.defaultProfile == "" then Some(fresh0) else lib.profile(c.defaultProfile, fresh0);
              !exists0 && init && v.Some? && Updated(lib, v.value, c).Ok?
    ensures ok ==> repo != null
    ensures repo != null ==> repo.swarmKey == if c.swarmKey != "" && writeKey then Some(c.swarmKey) else None
    ensures repo != null ==> (ok <==> c.swarmKey == "" || writeKey)
  {
    repo, ok := null, false;
    if exists0 { return; }
    var v := fresh0;
    if c.defaultProfile != "" {
      var profiled := lib.profile(c.defaultProfile, v);
      if profiled.None? { return; }
      v := profiled.value;
    }
    var conf := new Config(v);
    var updated := conf.Update(lib, c);
    if !updated || !init { return; }
    repo := new Repo(conf);
    ok := repo.WriteKey(c, writeKey);
  }

  /** A first start initialises and then opens. The opening leaves the
      configuration that the initialisation wrote if and only if it does not
      get to store one, or repeating the update has no effect. */
  lemma OpenAfterInitExactly(
    lib: Library, v: ConfigValue, c: AsioConfig, css: seq<seq<Component>>, io: Io, unlocked: bool)
    requires IsPortNumber(c.swarmPort) && CanonicalTexts(lib.table, v.swarm, css)
    requires Updated(lib, v, c).Ok?
    ensures var w := Updated(lib, v, c).value;
      StoredAfterOpen(lib, w, c, io, unlocked) == w
      <==> !Commits(lib, w, c, io, unlocked) || c.swarmPort == 0 || AllSetPorts(lib.table, css, c.swarmPort)
  {
    UpdateIsIdempotentExactly(lib, v, c, css);
  }
}
