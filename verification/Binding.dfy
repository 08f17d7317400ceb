/** Node binding of internal/mihomo/binding.go and internal/config/mihomo.go: accounts reference managed proxies,
    proxies belong to node keys, and every bound node key has a local port. */
module Binding {

  import opened Basics

  datatype Account = Account(
    email: string, mobile: string, identifier: string, proxyID: string, manualBinding: bool, noProxy: bool,
    cooldownUntil: int, disabled: bool)

  datatype Proxy = Proxy(id: string, name: string, kind: string, host: string, port: int)

  datatype Node = Node(name: string, kind: string)

  datatype Subscription = Subscription(id: string, nodes: seq<Node>)

  datatype Config = Config(
    accounts: seq<Account>, proxies: seq<Proxy>, portMap: map<string, int>, subscriptions: seq<Subscription>,
    basePort: int, apiPort: int)

  // Trimming, the hash that names a node's proxy, the account matcher and the validator but for the API port.
  datatype Names = Names(
    trim: string -> string, proxyID: string -> string, matches: (Account, string) -> bool, valid: Config -> bool)

  const MANAGED_PREFIX := "mihomo-"
  const DEFAULT_BASE_PORT := 10801
  const DEFAULT_API_PORT := 19090

  predicate IsManaged(names: Names, id: string) {
    MANAGED_PREFIX <= names.trim(id)
  }

  /** What is taken for granted: the hash is injective and yields trimmed managed identifiers. */
  ghost predicate Sound(names: Names) {
    && (forall s :: names.trim(names.trim(s)) == names.trim(s))
    && (forall k :: IsManaged(names, names.proxyID(k)) && names.trim(names.proxyID(k)) == names.proxyID(k))
    && (forall j, k :: names.proxyID(j) == names.proxyID(k) ==> j == k)
    && names.trim("") == ""
  }

  // ---------------------------------------------------------------- node keys

  /** The first "::" at or after i, or the length of the key. */
  function Separator(key: string, i: nat): (k: nat)
    requires i <= |key|
    ensures i <= k <= |key| && (k < |key| ==> "::" <= key[k..])
    ensures forall j | i <= j < k :: !("::" <= key[j..])
    decreases |key| - i
  {
    if i == |key| || "::" <= key[i..] then i else Separator(key, i + 1)
  }

  function SplitNodeKey(key: string): (string, string) {
    var k := Separator(key, 0);
    if k == |key| || key[..k] == "" || key[k + 2..] == "" then ("", "") else (key[..k], key[k + 2..])
  }

  /** Splitting a joined key gives its halves back exactly when the first half neither contains "::" nor
      ends in ':'. */
  lemma NodeKeyRoundTripIff(sub: string, name: string)
    requires sub != "" && name != ""
    ensures SplitNodeKey(sub + "::" + name) == (sub, name) <==> forall j | 0 <= j < |sub| :: !("::" <= (sub + ":")[j..])
  {
    var key := sub + "::" + name;
    var k := Separator(key, 0);
    assert key[|sub|..] == "::" + name && "::" <= key[|sub|..];
    ColonsInFirstHalf(sub, name);
    if k == |sub| {
      assert key[..k] == sub && key[k + 2..] == name;
    } else {
      assert k < |sub| && |key[..k]| != |sub|;
      assert "::" <= (sub + ":")[k..];
    }
  }

  lemma ColonsInFirstHalf(sub: string, name: string)
    ensures forall j | 0 <= j < |sub| :: "::" <= (sub + "::" + name)[j..] <==> "::" <= (sub + ":")[j..]
  {
    var key := sub + "::" + name;
    forall j | 0 <= j < |sub| ensures "::" <= key[j..] <==> "::" <= (sub + ":")[j..] {
      assert key[j..][0] == (sub + ":")[j..][0] && key[j..][1] == (sub + ":")[j..][1];
    }
  }

  function FindInNodes(nodes: seq<Node>, name: string): Option<Node> {
    if nodes == [] then None else if nodes[0].name == name then Some(nodes[0]) else FindInNodes(nodes[1..], name)
  }

  function FindInSubscriptions(subs: seq<Subscription>, subID: string, name: string): Option<Node> {
    if subs == [] then None
    else
      var found := if subs[0].id == subID then FindInNodes(subs[0].nodes, name) else None;
      if found.Some? then found else FindInSubscriptions(subs[1..], subID, name)
  }

  function FindNode(subs: seq<Subscription>, key: string): Option<Node> {
    var (sub, name) := SplitNodeKey(key);
    if sub == "" || name == "" then None else FindInSubscriptions(subs, sub, name)
  }

  predicate Live(c: Config, key: string) {
    FindNode(c.subscriptions, key).Some?
  }

  // ---------------------------------------------------------------- ports

  ghost predicate Injective(ports: map<string, int>) {
    (forall k | k in ports :: ports[k] > 0) &&
    (forall j, k | j in ports && k in ports && j != k :: ports[j] != ports[k])
  }

  predicate Uses(ports: map<string, int>, port: int) {
    exists k :: k in ports && ports[k] == port
  }

  function Ports(ports: map<string, int>): set<int> {
    set k | k in ports :: ports[k]
  }

  function Taken(c: Config): set<int> {
    Ports(c.portMap) + (if c.apiPort > 0 then {c.apiPort} else {})
  }

  function Base(c: Config): (b: int)
    ensures b > 0
  {
    if c.basePort > 0 then c.basePort else DEFAULT_BASE_PORT
  }

  /** The least port from p on that is not taken; there is one, since only so many are taken. */
  function LeastFree(taken: set<int>, p: int): (q: int)
    ensures p <= q <= p + |taken| && q !in taken
    decreases |taken|
  {
    if p !in taken then p else LeastFree(taken - {p}, p + 1)
  }

  lemma {:induction false} LeastFreeIsLeast(taken: set<int>, p: int, r: int)
    requires p <= r < LeastFree(taken, p)
    ensures r in taken
    decreases |taken|
  {
    if r != p {
      LeastFreeIsLeast(taken - {p}, p + 1, r);
    }
  }

  /** The only port with these properties. */
  lemma LeastFreeIs(taken: set<int>, p: int, q: int)
    requires p <= q && q !in taken && forall r | p <= r < q :: r in taken
    ensures LeastFree(taken, p) == q
  {
    var f := LeastFree(taken, p);
    if q < f {
      LeastFreeIsLeast(taken, p, q);
    }
  }

  function Allocated(c: Config, key: string): (int, Config) {
    if key in c.portMap && c.portMap[key] > 0 then (c.portMap[key], c)
    else
      var port := LeastFree(Taken(c), Base(c));
      (port, c.(portMap := c.portMap[key := port]))
  }

  lemma {:induction false} PortsAreFew(ports: map<string, int>)
    ensures |Ports(ports)| <= |ports|
    decreases |ports|
  {
    if ports != map[] {
      var k :| k in ports;
      var rest := ports - {k};
      PortsAreFew(rest);
      forall x | x in Ports(ports) ensures x in Ports(rest) + {ports[k]} {
        var j :| j in ports && ports[j] == x;
        assert j != k ==> j in rest && rest[j] == x;
      }
      Fewer(Ports(ports), Ports(rest) + {ports[k]});
    } else {
      assert Ports(ports) == {};
    }
  }

  /** A fresh port clashes with nothing and is at most one beyond the ports in use. */
  lemma FreshPort(c: Config)
    ensures var port := LeastFree(Taken(c), Base(c));
      && Base(c) <= port <= Base(c) + |c.portMap| + 1 && port != c.apiPort && !Uses(c.portMap, port)
  {
    PortsAreFew(c.portMap);
    var port := LeastFree(Taken(c), Base(c));
    assert |Taken(c)| <= |Ports(c.portMap)| + 1;
    forall k | k in c.portMap ensures c.portMap[k] != port {
      assert c.portMap[k] in Ports(c.portMap);
    }
  }

  /** Every smaller port from the base on is in use or is the API port. */
  lemma FreshPortIsLeast(c: Config, p: int)
    requires Base(c) <= p < LeastFree(Taken(c), Base(c))
    ensures p == c.apiPort || Uses(c.portMap, p)
  {
    LeastFreeIsLeast(Taken(c), Base(c), p);
  }

  /** Allocation keeps the port map injective, and a key that has a port keeps it. */
  lemma AllocationKeepsInjective(c: Config, key: string)
    requires Injective(c.portMap)
    ensures var (port, next) := Allocated(c, key);
      && Injective(next.portMap) && key in next.portMap && next.portMap[key] == port && (key in c.portMap ==> next == c)
      && next == c.(portMap := next.portMap) &&
        (forall k | k in c.portMap :: k in next.portMap && next.portMap[k] == c.portMap[k])
  {
    FreshPort(c);
    assert forall k | k in c.portMap :: Uses(c.portMap, c.portMap[k]);
  }

  // ---------------------------------------------------------------- garbage collection

  ghost predicate References(names: Names, c: Config, id: string) {
    exists a | a in c.accounts :: names.trim(a.proxyID) == id
  }

  ghost predicate HasProxy(names: Names, c: Config, id: string) {
    exists p | p in c.proxies :: names.trim(p.id) == id
  }

  function Referenced(names: Names, accounts: seq<Account>): set<string> {
    set a | a in accounts && IsManaged(names, a.proxyID) :: names.trim(a.proxyID)
  }

  function KeptProxies(names: Names, proxies: seq<Proxy>, used: set<string>): (kept: seq<Proxy>)
    ensures forall p :: p in kept <==> p in proxies && (IsManaged(names, p.id) ==> names.trim(p.id) in used)
  {
    if proxies == [] then []
    else
      var rest := KeptProxies(names, proxies[1..], used);
      if IsManaged(names, proxies[0].id) && names.trim(proxies[0].id) !in used then rest else [proxies[0]] + rest
  }

  function Existing(names: Names, proxies: seq<Proxy>): set<string> {
    set p | p in proxies :: names.trim(p.id)
  }

  function Cleared(names: Names, a: Account, existing: set<string>): Account {
    if IsManaged(names, a.proxyID) && names.trim(a.proxyID) !in existing
      then a.(proxyID := "", manualBinding := false) else a
  }

  function ClearAll(names: Names, accounts: seq<Account>, existing: set<string>): (cleared: seq<Account>)
    ensures |cleared| == |accounts|
    ensures forall i | 0 <= i < |accounts| :: cleared[i] == Cleared(names, accounts[i], existing)
  {
    seq(|accounts|, i requires 0 <= i < |accounts| => Cleared(names, accounts[i], existing))
  }

  function LivePorts(c: Config): map<string, int> {
    map k | k in c.portMap && Live(c, k) :: c.portMap[k]
  }

  function PortsWithProxy(names: Names, ports: map<string, int>, existing: set<string>): map<string, int> {
    map k | k in ports && names.proxyID(k) in existing :: ports[k]
  }

  function Gc(names: Names, c: Config): Config {
    var kept := KeptProxies(names, c.proxies, Referenced(names, c.accounts));
    var existing := Existing(names, kept);
    Config(ClearAll(names, c.accounts, existing), kept, PortsWithProxy(names, LivePorts(c), existing),
           c.subscriptions, c.basePort, c.apiPort)
  }

  /** Which proxies are left: a managed one exactly when an account references it. */
  lemma GcKeepsProxies(names: Names, c: Config, p: Proxy)
    requires Sound(names)
    ensures p in Gc(names, c).proxies <==>
            p in c.proxies && (IsManaged(names, p.id) ==> References(names, c, names.trim(p.id)))
  {
    var used := Referenced(names, c.accounts);
    if IsManaged(names, p.id) && References(names, c, names.trim(p.id)) {
      var a :| a in c.accounts && names.trim(a.proxyID) == names.trim(p.id);
      assert IsManaged(names, a.proxyID) && names.trim(p.id) in used;
    }
  }

  /** Which managed identifiers still have a proxy: those that had one and are referenced. */
  lemma GcKeepsIds(names: Names, c: Config, id: string)
    requires Sound(names) && MANAGED_PREFIX <= id && names.trim(id) == id
    ensures HasProxy(names, Gc(names, c), id) <==> HasProxy(names, c, id) && References(names, c, id)
    ensures HasProxy(names, Gc(names, c), id) <==>
            id in Existing(names, KeptProxies(names, c.proxies, Referenced(names, c.accounts)))
  {
    var g := Gc(names, c);
    if HasProxy(names, g, id) {
      var p :| p in g.proxies && names.trim(p.id) == id;
      GcKeepsProxies(names, c, p);
    }
    if HasProxy(names, c, id) && References(names, c, id) {
      var p :| p in c.proxies && names.trim(p.id) == id;
      GcKeepsProxies(names, c, p);
    }
  }

  /** Which ports are left: those of live nodes whose proxy exists and is referenced. */
  lemma GcKeepsPorts(names: Names, c: Config, key: string)
    requires Sound(names)
    ensures var g, id := Gc(names, c), names.proxyID(key);
      (key in g.portMap <==> key in c.portMap && Live(c, key) && HasProxy(names, c, id) && References(names, c, id)) &&
      (key in g.portMap ==> g.portMap[key] == c.portMap[key])
  {
    GcKeepsIds(names, c, names.proxyID(key));
  }

  /** Which bindings are left: an account keeps its proxy unless that proxy is managed and does not exist. */
  lemma GcKeepsBindings(names: Names, c: Config, i: nat)
    requires Sound(names) && i < |c.accounts|
    ensures var a, b := c.accounts[i], Gc(names, c).accounts[i];
      b == if IsManaged(names, a.proxyID) && !HasProxy(names, c, names.trim(a.proxyID))
        then a.(proxyID := "", manualBinding := false) else a
  {
    var a := c.accounts[i];
    assert a in c.accounts;
    if IsManaged(names, a.proxyID) {
      assert References(names, c, names.trim(a.proxyID));
      GcKeepsIds(names, c, names.trim(a.proxyID));
    }
  }

  /** After a collection every mapped key has a live node, a managed proxy and an account that uses it, and
      every managed binding has its proxy. */
  ghost predicate Collected(names: Names, c: Config) {
    && (forall k | k in c.portMap ::
      Live(c, k) && HasProxy(names, c, names.proxyID(k)) && References(names, c, names.proxyID(k)))
    && (forall p | p in c.proxies && IsManaged(names, p.id) :: References(names, c, names.trim(p.id)))
    && (forall a | a in c.accounts && IsManaged(names, a.proxyID) :: HasProxy(names, c, names.trim(a.proxyID)))
  }

  lemma GcKeepsReferences(names: Names, c: Config, id: string)
    requires Sound(names) && MANAGED_PREFIX <= id && names.trim(id) == id && HasProxy(names, c, id)
    ensures References(names, Gc(names, c), id) <==> References(names, c, id)
  {
    var g := Gc(names, c);
    if References(names, c, id) {
      var a :| a in c.accounts && names.trim(a.proxyID) == id;
      var i :| 0 <= i < |c.accounts| && c.accounts[i] == a;
      GcKeepsBindings(names, c, i);
      assert g.accounts[i] in g.accounts;
    }
    if References(names, g, id) {
      var b :| b in g.accounts && names.trim(b.proxyID) == id;
      var i :| 0 <= i < |g.accounts| && g.accounts[i] == b;
      GcKeepsBindings(names, c, i);
      assert c.accounts[i] in c.accounts;
    }
  }

  lemma GcCollects(names: Names, c: Config)
    requires Sound(names)
    ensures Collected(names, Gc(names, c))
  {
    var g := Gc(names, c);
    forall k | k in g.portMap
      ensures Live(g, k) && HasProxy(names, g, names.proxyID(k)) && References(names, g, names.proxyID(k))
    {
      PortIsCollected(names, c, k);
    }
    forall p | p in g.proxies && IsManaged(names, p.id) ensures References(names, g, names.trim(p.id)) {
      GcKeepsProxies(names, c, p);
      GcKeepsReferences(names, c, names.trim(p.id));
    }
    forall a | a in g.accounts && IsManaged(names, a.proxyID) ensures HasProxy(names, g, names.trim(a.proxyID)) {
      var i :| 0 <= i < |g.accounts| && g.accounts[i] == a;
      BindingIsCollected(names, c, i);
    }
  }

  lemma PortIsCollected(names: Names, c: Config, k: string)
    requires Sound(names) && k in Gc(names, c).portMap
    ensures var g := Gc(names, c);
      Live(g, k) && HasProxy(names, g, names.proxyID(k)) && References(names, g, names.proxyID(k))
  {
    GcKeepsPorts(names, c, k);
    GcKeepsIds(names, c, names.proxyID(k));
    GcKeepsReferences(names, c, names.proxyID(k));
  }

  lemma BindingIsCollected(names: Names, c: Config, i: nat)
    requires Sound(names) && i < |Gc(names, c).accounts| && IsManaged(names, Gc(names, c).accounts[i].proxyID)
    ensures HasProxy(names, Gc(names, c), names.trim(Gc(names, c).accounts[i].proxyID))
  {
    GcKeepsBindings(names, c, i);
    assert c.accounts[i] in c.accounts;
    GcKeepsIds(names, c, names.trim(c.accounts[i].proxyID));
  }

  /** A collected configuration is a fixed point. */
  lemma CollectedIsFixed(names: Names, c: Config)
    requires Sound(names) && Collected(names, c)
    ensures Gc(names, c) == c
  {
    CollectedProxiesStay(names, c);
    CollectedBindingsStay(names, c);
    CollectedPortsStay(names, c);
  }

  lemma CollectedProxiesStay(names: Names, c: Config)
    requires Sound(names) && Collected(names, c)
    ensures Gc(names, c).proxies == c.proxies
  {
    forall p | p in c.proxies && IsManaged(names, p.id) ensures names.trim(p.id) in Referenced(names, c.accounts) {
      var a :| a in c.accounts && names.trim(a.proxyID) == names.trim(p.id);
    }
    AllKept(names, c.proxies, Referenced(names, c.accounts));
  }

  lemma CollectedBindingsStay(names: Names, c: Config)
    requires Sound(names) && Collected(names, c)
    ensures Gc(names, c).accounts == c.accounts
  {
    forall i | 0 <= i < |c.accounts| ensures Gc(names, c).accounts[i] == c.accounts[i] {
      GcKeepsBindings(names, c, i);
      assert c.accounts[i] in c.accounts;
    }
  }

  lemma CollectedPortsStay(names: Names, c: Config)
    requires Sound(names) && Collected(names, c)
    ensures Gc(names, c).portMap == c.portMap
  {
    var ports := Gc(names, c).portMap;
    forall k ensures (k in ports <==> k in c.portMap) && (k in c.portMap ==> ports[k] == c.portMap[k]) {
      CollectedPortStays(names, c, k);
    }
  }

  lemma CollectedPortStays(names: Names, c: Config, k: string)
    requires Sound(names) && Collected(names, c)
    ensures k in Gc(names, c).portMap <==> k in c.portMap
    ensures k in c.portMap ==> Gc(names, c).portMap[k] == c.portMap[k]
  {
    GcKeepsPorts(names, c, k);
  }

  lemma {:induction false} AllKept(names: Names, proxies: seq<Proxy>, used: set<string>)
    requires forall p | p in proxies && IsManaged(names, p.id) :: names.trim(p.id) in used
    ensures KeptProxies(names, proxies, used) == proxies
  {
    if proxies != [] {
      AllKept(names, proxies[1..], used);
      assert proxies == [proxies[0]] + proxies[1..];
    }
  }

  /** Collecting twice is collecting once. */
  lemma GcIsIdempotent(names: Names, c: Config)
    requires Sound(names)
    ensures Gc(names, Gc(names, c)) == Gc(names, c)
  {
    GcCollects(names, c);
    CollectedIsFixed(names, Gc(names, c));
  }

  // ---------------------------------------------------------------- transactions

  datatype Error = NoAccount | NoNode | NoSubscription | NoUsableNode | PortsInUse | Invalid

  datatype Outcome = Done(config: Config) | Failed(error: Error)

  /** ValidateMihomoConfig's test that the API port is no listener's. */
  predicate ApiPortRejected(c: Config) {
    c.basePort > 0 && c.apiPort > 0 && c.basePort <= c.apiPort < c.basePort + |c.portMap| + 16 &&
      Uses(c.portMap, c.apiPort)
  }

  /** A transaction commits a valid configuration only. */
  function Commit(names: Names, c: Config): Outcome {
    if names.valid(c) && !ApiPortRejected(c) then Done(c) else Failed(Invalid)
  }

  function ProxyFrom(names: Names, proxies: seq<Proxy>, id: string, i: nat): (k: nat)
    requires i <= |proxies|
    ensures i <= k <= |proxies| && (k < |proxies| ==> names.trim(proxies[k].id) == id)
    decreases |proxies| - i
  {
    if i == |proxies| || names.trim(proxies[i].id) == id then i else ProxyFrom(names, proxies, id, i + 1)
  }

  function Listener(p: Proxy, name: string, port: int): Proxy {
    p.(name := name, kind := "socks5", host := "127.0.0.1", port := port)
  }

  /** upsertManagedProxyLocked: where the node's proxy stands, and the configuration that has it. */
  function Upserted(names: Names, c: Config, key: string, name: string, port: int): (r: (nat, Config))
    ensures r.0 < |r.1.proxies|
  {
    var k := ProxyFrom(names, c.proxies, names.proxyID(key), 0);
    if k < |c.proxies| then (k, c.(proxies := c.proxies[k := Listener(c.proxies[k], name, port)]))
    else (k, c.(proxies := c.proxies + [Listener(Proxy(names.proxyID(key), "", "", "", 0), name, port)]))
  }

  /** The account put on the node: port, proxy, reference. */
  function OnNode(names: Names, c: Config, i: nat, key: string, name: string, manual: bool): Config
    requires i < |c.accounts|
  {
    var (port, ported) := Allocated(c, key);
    var (k, proxied) := Upserted(names, ported, key, name, port);
    var a := c.accounts[i].(proxyID := proxied.proxies[k].id, cooldownUntil := 0);
    proxied.(accounts := c.accounts[i := if manual then a.(noProxy := false, manualBinding := true) else a])
  }

  function AccountFrom(names: Names, accounts: seq<Account>, id: string, i: nat): (k: nat)
    requires i <= |accounts|
    ensures i <= k <= |accounts| && (k < |accounts| ==> names.matches(accounts[k], id))
    decreases |accounts| - i
  {
    if i == |accounts| || names.matches(accounts[i], id) then i else AccountFrom(names, accounts, id, i + 1)
  }

  /** An account its user wants without a proxy. */
  function Unbound(a: Account): Account {
    a.(proxyID := "", cooldownUntil := 0, noProxy := true, manualBinding := false)
  }

  function Bind(names: Names, c: Config, identifier: string, nodeKey: string): Outcome {
    var id, key := names.trim(identifier), names.trim(nodeKey);
    var i := AccountFrom(names, c.accounts, id, 0);
    if i == |c.accounts| then Failed(NoAccount)
    else if key == "" then
      var a := Unbound(c.accounts[i]);
      Commit(names, Gc(names, c.(accounts := c.accounts[i := a])))
    else
      var node := FindNode(c.subscriptions, key);
      if node == None then Failed(NoNode)
      else Commit(names, Gc(names, OnNode(names, c, i, key, node.value.name, true)))
  }

  predicate Assignable(a: Account) {
    !a.disabled && a.identifier != "" && !a.noProxy && !a.manualBinding
  }

  /** The account put on the node, if it is live. */
  function IfLive(names: Names, c: Config, i: nat, key: string): Config
    requires i < |c.accounts|
  {
    var node := FindNode(c.subscriptions, key);
    if node.Some? then OnNode(names, c, i, key, node.value.name, false) else c
  }

  /** The assignable accounts from i on, put on the nodes in turn, the next one on keys[turn]. */
  function AssignFrom(names: Names, c: Config, keys: seq<string>, i: nat, turn: nat): Config
    requires i <= |c.accounts| && keys != []
    decreases |c.accounts| - i
  {
    if i == |c.accounts| then c
    else if !Assignable(c.accounts[i]) then AssignFrom(names, c, keys, i + 1, turn)
    else
      AssignFrom(names, IfLive(names, c, i, keys[turn % |keys|]), keys, i + 1, turn + 1)
  }

  function Released(names: Names, a: Account): Account {
    if !a.manualBinding && IsManaged(names, a.proxyID) then a.(proxyID := "") else a
  }

  /** Every managed binding but the manual ones undone. */
  function Freed(names: Names, c: Config): Config {
    c.(accounts := seq(|c.accounts|, i requires 0 <= i < |c.accounts| => Released(names, c.accounts[i])))
  }

  /** The node keys trimmed, without blanks, repetitions and nodes that failed their last test. */
  function UsableKeys(names: Names, failed: string -> bool, keys: seq<string>, seen: set<string>): seq<string>
    decreases |keys|
  {
    if keys == [] then []
    else
      var key := names.trim(keys[0]);
      if key == "" || key in seen then UsableKeys(names, failed, keys[1..], seen)
      else (if failed(key) then [] else [key]) + UsableKeys(names, failed, keys[1..], seen + {key})
  }

  function Assign(names: Names, c: Config, failed: string -> bool, nodeKeys: seq<string>): Outcome {
    var keys := UsableKeys(names, failed, nodeKeys, {});
    if keys == [] then Failed(NoUsableNode)
    else if exists i | 0 <= i < |keys| :: FindNode(c.subscriptions, keys[i]) == None then Failed(NoNode)
    else
      Commit(names, Gc(names, AssignFrom(names, Gc(names, Freed(names, c)), keys, 0, 0)))
  }

  function SubscriptionFrom(subs: seq<Subscription>, id: string, i: nat): (k: nat)
    requires i <= |subs|
    ensures i <= k <= |subs| && (k < |subs| ==> subs[k].id == id)
    decreases |subs| - i
  {
    if i == |subs| || subs[i].id == id then i else SubscriptionFrom(subs, id, i + 1)
  }

  function DeadProxies(names: Names, c: Config, subID: string): set<string> {
    set k | k in c.portMap && subID + "::" <= k :: names.proxyID(k)
  }

  function Detached(names: Names, a: Account, dead: set<string>): Account {
    if names.trim(a.proxyID) in dead then a.(proxyID := "", manualBinding := false) else a
  }

  function Unsubscribed(names: Names, c: Config, subID: string, k: nat): Config
    requires k < |c.subscriptions|
  {
    var dead := DeadProxies(names, c, subID);
    c.(subscriptions := c.subscriptions[..k] + c.subscriptions[k + 1..],
       accounts := seq(|c.accounts|, i requires 0 <= i < |c.accounts| => Detached(names, c.accounts[i], dead)))
  }

  function DeleteSubscription(names: Names, c: Config, id: string): Outcome {
    var subID := names.trim(id);
    var k := SubscriptionFrom(c.subscriptions, subID, 0);
    if k == |c.subscriptions| then Failed(NoSubscription)
    else Commit(names, Gc(names, Unsubscribed(names, c, subID, k)))
  }

  /** RefreshSubscription, once the new nodes are fetched. */
  function Refresh(names: Names, c: Config, subID: string, nodes: seq<Node>): Outcome {
    var k := SubscriptionFrom(c.subscriptions, subID, 0);
    if k == |c.subscriptions| then Failed(NoSubscription)
    else Commit(names, Gc(names, c.(subscriptions := c.subscriptions[k := c.subscriptions[k].(nodes := nodes)])))
  }

  function Unmanaged(names: Names, a: Account): Account {
    if IsManaged(names, a.proxyID) then a.(proxyID := "", manualBinding := false, cooldownUntil := 0) else a
  }

  /** clearManagedBindingsLocked, but for the collection. */
  function AllUnmanaged(names: Names, c: Config): Config {
    c.(accounts := seq(|c.accounts|, i requires 0 <= i < |c.accounts| => Unmanaged(names, c.accounts[i])))
  }

  /** The ports as set and normalised. */
  function WithPorts(c: Config, basePort: int, apiPort: int): Config {
    c.(basePort := if basePort > 0 then basePort else Base(c),
       apiPort := if apiPort > 0 then apiPort else if c.apiPort > 0 then c.apiPort else DEFAULT_API_PORT)
  }

  /** UpdateSettings, as far as ports and bindings go. */
  function Configure(names: Names, c: Config, enabled: bool, basePort: int, apiPort: int): Outcome {
    if basePort > 0 && basePort != c.basePort && c.portMap != map[] then Failed(PortsInUse)
    else Commit(names, WithPorts(if enabled then c else Gc(names, AllUnmanaged(names, c)), basePort, apiPort))
  }

  // ---------------------------------------------------------------- what every transaction keeps

  lemma GcKeepsInjective(names: Names, c: Config)
    requires Injective(c.portMap)
    ensures Injective(Gc(names, c).portMap)
  {
  }

  lemma OnNodeKeepsInjective(names: Names, c: Config, i: nat, key: string, name: string, manual: bool)
    requires i < |c.accounts| && Injective(c.portMap)
    ensures Injective(OnNode(names, c, i, key, name, manual).portMap)
  {
    AllocationKeepsInjective(c, key);
  }

  lemma {:induction false} AssignKeepsInjective(names: Names, c: Config, keys: seq<string>, i: nat, turn: nat)
    requires i <= |c.accounts| && keys != [] && Injective(c.portMap)
    ensures Injective(AssignFrom(names, c, keys, i, turn).portMap)
    decreases |c.accounts| - i
  {
    if i < |c.accounts| {
      if Assignable(c.accounts[i]) {
        var key := keys[turn % |keys|];
        var node := FindNode(c.subscriptions, key);
        if node.Some? {
          OnNodeKeepsInjective(names, c, i, key, node.value.name, false);
        }
        AssignKeepsInjective(names, IfLive(names, c, i, key), keys, i + 1, turn + 1);
      } else {
        AssignKeepsInjective(names, c, keys, i + 1, turn);
      }
    }
  }

  datatype Transaction =
    | Binding(identifier: string, nodeKey: string)
    | Assigning(failed: string -> bool, nodeKeys: seq<string>)
    | Deleting(id: string)
    | Refreshing(subID: string, nodes: seq<Node>)
    | Configuring(enabled: bool, basePort: int, apiPort: int)
    | Collecting

  function Result(names: Names, c: Config, t: Transaction): Outcome {
    match t
    case Binding(id, key) => Bind(names, c, id, key)
    case Assigning(failed, keys) => Assign(names, c, failed, keys)
    case Deleting(id) => DeleteSubscription(names, c, id)
    case Refreshing(id, nodes) => Refresh(names, c, id, nodes)
    case Configuring(enabled, basePort, apiPort) => Configure(names, c, enabled, basePort, apiPort)
    case Collecting => Commit(names, Gc(names, c))
  }

  /** Store.Update: a failed transaction leaves the configuration as it was. */
  function Apply(names: Names, c: Config, t: Transaction): Config {
    var r := Result(names, c, t);
    if r.Done? then r.config else c
  }

  lemma BindKeepsInjective(names: Names, c: Config, identifier: string, nodeKey: string)
    requires Injective(c.portMap)
    ensures Bind(names, c, identifier, nodeKey).Done? ==> Injective(Bind(names, c, identifier, nodeKey).config.portMap)
  {
    var key := names.trim(nodeKey);
    var i := AccountFrom(names, c.accounts, names.trim(identifier), 0);
    var node := FindNode(c.subscriptions, key);
    if i < |c.accounts| && key == "" {
      GcKeepsInjective(names, c.(accounts := c.accounts[i := Unbound(c.accounts[i])]));
    } else if i < |c.accounts| && node.Some? {
      OnNodeKeepsInjective(names, c, i, key, node.value.name, true);
      GcKeepsInjective(names, OnNode(names, c, i, key, node.value.name, true));
    }
  }

  lemma AssignmentKeepsInjective(names: Names, c: Config, failed: string -> bool, nodeKeys: seq<string>)
    requires Injective(c.portMap)
    ensures Assign(names, c, failed, nodeKeys).Done? ==> Injective(Assign(names, c, failed, nodeKeys).config.portMap)
  {
    var keys := UsableKeys(names, failed, nodeKeys, {});
    if keys != [] {
      var g := Gc(names, Freed(names, c));
      GcKeepsInjective(names, Freed(names, c));
      AssignKeepsInjective(names, g, keys, 0, 0);
      GcKeepsInjective(names, AssignFrom(names, g, keys, 0, 0));
    }
  }

  lemma TransactionKeepsInjective(names: Names, c: Config, t: Transaction)
    requires Injective(c.portMap)
    ensures Injective(Apply(names, c, t).portMap)
  {
    match t
    case Binding(identifier, nodeKey) => BindKeepsInjective(names, c, identifier, nodeKey);
    case Assigning(failed, nodeKeys) => AssignmentKeepsInjective(names, c, failed, nodeKeys);
    case Collecting => GcKeepsInjective(names, c);
    case Configuring(_, _, _) => GcKeepsInjective(names, AllUnmanaged(names, c));
    case Deleting(id) =>
      var k := SubscriptionFrom(c.subscriptions, names.trim(id), 0);
      if k < |c.subscriptions| {
        GcKeepsInjective(names, Unsubscribed(names, c, names.trim(id), k));
      }
    case Refreshing(id, nodes) =>
      var k := SubscriptionFrom(c.subscriptions, id, 0);
      if k < |c.subscriptions| {
        GcKeepsInjective(names, c.(subscriptions := c.subscriptions[k := c.subscriptions[k].(nodes := nodes)]));
      }
  }

  function ApplyAll(names: Names, c: Config, ts: seq<Transaction>): Config
    decreases |ts|
  {
    if ts == [] then c else ApplyAll(names, Apply(names, c, ts[0]), ts[1..])
  }

  /** Over any sequence of transactions from an empty port map, no two node keys ever share a port. */
  lemma {:induction false} PortsStayDistinct(names: Names, c: Config, ts: seq<Transaction>)
    requires Injective(c.portMap)
    ensures Injective(ApplyAll(names, c, ts).portMap)
    decreases |ts|
  {
    if ts != [] {
      TransactionKeepsInjective(names, c, ts[0]);
      PortsStayDistinct(names, Apply(names, c, ts[0]), ts[1..]);
    }
  }

  /** Every committed transaction leaves a collected configuration; one that sets ports only must find one. */
  lemma CommittedIsCollected(names: Names, c: Config, t: Transaction)
    requires Sound(names) && Result(names, c, t).Done? && (t.Configuring? && t.enabled ==> Collected(names, c))
    ensures Collected(names, Result(names, c, t).config)
  {
    var d := Result(names, c, t).config;
    match t
    case Binding(identifier, nodeKey) =>
      var key := names.trim(nodeKey);
      var i := AccountFrom(names, c.accounts, names.trim(identifier), 0);
      if key == "" {
        GcCollects(names, c.(accounts := c.accounts[i := Unbound(c.accounts[i])]));
      } else {
        GcCollects(names, OnNode(names, c, i, key, FindNode(c.subscriptions, key).value.name, true));
      }
    case Assigning(failed, nodeKeys) =>
      var keys := UsableKeys(names, failed, nodeKeys, {});
      GcCollects(names, AssignFrom(names, Gc(names, Freed(names, c)), keys, 0, 0));
    case Deleting(id) =>
      var k := SubscriptionFrom(c.subscriptions, names.trim(id), 0);
      GcCollects(names, Unsubscribed(names, c, names.trim(id), k));
    case Refreshing(id, nodes) =>
      var k := SubscriptionFrom(c.subscriptions, id, 0);
      GcCollects(names, c.(subscriptions := c.subscriptions[k := c.subscriptions[k].(nodes := nodes)]));
    case Configuring(enabled, basePort, apiPort) =>
      GcCollects(names, AllUnmanaged(names, c));
      PortsDoNotMatter(names, if enabled then c else Gc(names, AllUnmanaged(names, c)), basePort, apiPort);
    case Collecting => GcCollects(names, c);
  }

  lemma PortsDoNotMatter(names: Names, c: Config, basePort: int, apiPort: int)
    requires Collected(names, c)
    ensures Collected(names, WithPorts(c, basePort, apiPort))
  {
    var d := WithPorts(c, basePort, apiPort);
    forall k | k in d.portMap ensures Live(d, k) && HasProxy(names, d, names.proxyID(k)) &&
        References(names, d, names.proxyID(k)) {
      assert Live(c, k) && HasProxy(names, c, names.proxyID(k)) && References(names, c, names.proxyID(k));
    }
    forall p | p in d.proxies && IsManaged(names, p.id) ensures References(names, d, names.trim(p.id)) {
      assert References(names, c, names.trim(p.id));
    }
    forall a | a in d.accounts && IsManaged(names, a.proxyID) ensures HasProxy(names, d, names.trim(a.proxyID)) {
      assert HasProxy(names, c, names.trim(a.proxyID));
    }
  }

  // ---------------------------------------------------------------- what a binding gives

  /** The node has a proxy that listens on its port. */
  ghost predicate HasListener(names: Names, c: Config, key: string) {
    key in c.portMap && exists p | p in c.proxies :: names.trim(p.id) == names.proxyID(key) && p.port == c.portMap[key]
  }

  ghost predicate BoundTo(names: Names, c: Config, i: nat, key: string) {
    i < |c.accounts| && names.trim(c.accounts[i].proxyID) == names.proxyID(key) && HasListener(names, c, key)
  }

  lemma OnNodeBinds(names: Names, c: Config, i: nat, key: string, name: string, manual: bool)
    requires Sound(names) && i < |c.accounts| && Injective(c.portMap)
    ensures var d := OnNode(names, c, i, key, name, manual);
      && BoundTo(names, d, i, key) && d.subscriptions == c.subscriptions && |d.accounts| == |c.accounts|
      && forall j | 0 <= j < |c.accounts| && j != i :: d.accounts[j] == c.accounts[j]
  {
    AllocationKeepsInjective(c, key);
    var (port, ported) := Allocated(c, key);
    var (k, proxied) := Upserted(names, ported, key, name, port);
    assert proxied.proxies[k] in proxied.proxies && names.trim(proxied.proxies[k].id) == names.proxyID(key);
    assert proxied.proxies[k].port == port == proxied.portMap[key];
  }

  lemma OnNodeKeepsListeners(names: Names, c: Config, i: nat, key: string, name: string, manual: bool, other: string)
    requires Sound(names) && i < |c.accounts| && Injective(c.portMap) && HasListener(names, c, other)
    ensures HasListener(names, OnNode(names, c, i, key, name, manual), other)
  {
    AllocationKeepsInjective(c, key);
    if other == key {
      OnNodeBinds(names, c, i, key, name, manual);
    } else {
      var (port, ported) := Allocated(c, key);
      var (k, proxied) := Upserted(names, ported, key, name, port);
      var p :| p in c.proxies && names.trim(p.id) == names.proxyID(other) && p.port == c.portMap[other];
      var q :| 0 <= q < |c.proxies| && c.proxies[q] == p;
      assert q != k && proxied.proxies[q] == p && p in proxied.proxies;
    }
  }

  /** A binding to a live node survives the collection. */
  lemma BindingSurvivesGc(names: Names, c: Config, i: nat, key: string)
    requires Sound(names) && BoundTo(names, c, i, key) && Live(c, key)
    ensures BoundTo(names, Gc(names, c), i, key) && Gc(names, c).accounts[i] == c.accounts[i]
  {
    var a := c.accounts[i];
    assert a in c.accounts && References(names, c, names.proxyID(key));
    var p :| p in c.proxies && names.trim(p.id) == names.proxyID(key) && p.port == c.portMap[key];
    GcKeepsProxies(names, c, p);
    GcKeepsPorts(names, c, key);
    GcKeepsBindings(names, c, i);
  }

  /** After a successful bind the account is on that node: its proxy listens on the node's own port. */
  lemma BindBinds(names: Names, c: Config, identifier: string, nodeKey: string)
    requires Sound(names) && Injective(c.portMap) && names.trim(nodeKey) != "" &&
      Bind(names, c, identifier, nodeKey).Done?
    ensures var d := Bind(names, c, identifier, nodeKey).config;
      var i := AccountFrom(names, c.accounts, names.trim(identifier), 0);
      BoundTo(names, d, i, names.trim(nodeKey)) && d.accounts[i].manualBinding && Live(d, names.trim(nodeKey))
  {
    var key := names.trim(nodeKey);
    var i := AccountFrom(names, c.accounts, names.trim(identifier), 0);
    var name := FindNode(c.subscriptions, key).value.name;
    OnNodeBinds(names, c, i, key, name, true);
    BindingSurvivesGc(names, OnNode(names, c, i, key, name, true), i, key);
  }

  /** How many of the accounts from i up to j are assignable. */
  function Turns(accounts: seq<Account>, i: nat, j: nat): nat
    requires i <= j <= |accounts|
    decreases j - i
  {
    if i == j then 0 else (if Assignable(accounts[i]) then 1 else 0) + Turns(accounts, i + 1, j)
  }

  lemma {:induction false} SameTurns(a: seq<Account>, b: seq<Account>, i: nat, j: nat)
    requires i <= j <= |a| && |a| == |b| && forall k | i <= k < |a| :: a[k] == b[k]
    ensures Turns(a, i, j) == Turns(b, i, j)
    decreases j - i
  {
    if i < j {
      SameTurns(a, b, i + 1, j);
    }
  }

  /** The accounts already passed keep their node, the others get theirs in turn. */
  lemma {:induction false} AssignGoesRound(names: Names, c: Config, keys: seq<string>, i: nat, turn: nat, j: nat,
                                           key: string)
    requires Sound(names) && Injective(c.portMap) && keys != [] && i <= |c.accounts| && j < |c.accounts|
    requires forall k | k in keys :: Live(c, k)
    requires if j < i then BoundTo(names, c, j, key)
             else Assignable(c.accounts[j]) && key == keys[(turn + Turns(c.accounts, i, j)) % |keys|]
    ensures var d := AssignFrom(names, c, keys, i, turn);
      BoundTo(names, d, j, key) && d.subscriptions == c.subscriptions && |d.accounts| == |c.accounts|
    decreases |c.accounts| - i
  {
    if i < |c.accounts| {
      if Assignable(c.accounts[i]) {
        AssignOneRound(names, c, keys, i, turn, j, key);
      } else {
        AssignGoesRound(names, c, keys, i + 1, turn, j, key);
      }
    }
  }

  lemma {:induction false} AssignOneRound(names: Names, c: Config, keys: seq<string>, i: nat, turn: nat, j: nat,
                                          key: string)
    requires Sound(names) && Injective(c.portMap) && keys != [] && i < |c.accounts| && j < |c.accounts| &&
      Assignable(c.accounts[i])
    requires forall k | k in keys :: Live(c, k)
    requires if j < i then BoundTo(names, c, j, key)
             else Assignable(c.accounts[j]) && key == keys[(turn + Turns(c.accounts, i, j)) % |keys|]
    ensures var d := AssignFrom(names, c, keys, i, turn);
      BoundTo(names, d, j, key) && d.subscriptions == c.subscriptions && |d.accounts| == |c.accounts|
    decreases |c.accounts| - i, 0
  {
    var mine := keys[turn % |keys|];
    assert Live(c, mine);
    var name := FindNode(c.subscriptions, mine).value.name;
    var next := OnNode(names, c, i, mine, name, false);
    OneBound(names, c, keys, i, turn, j, key, name);
    AssignGoesRound(names, next, keys, i + 1, turn + 1, j, key);
  }

  /** The account whose turn it is gets its node, and nothing changes for the others. */
  lemma OneBound(names: Names, c: Config, keys: seq<string>, i: nat, turn: nat, j: nat, key: string, name: string)
    requires Sound(names) && Injective(c.portMap) && keys != [] && i < |c.accounts| && j < |c.accounts| &&
      Assignable(c.accounts[i])
    requires forall k | k in keys :: Live(c, k)
    requires if j < i then BoundTo(names, c, j, key)
             else Assignable(c.accounts[j]) && key == keys[(turn + Turns(c.accounts, i, j)) % |keys|]
    ensures var next := OnNode(names, c, i, keys[turn % |keys|], name, false);
      && Injective(next.portMap) && next.subscriptions == c.subscriptions && |next.accounts| == |c.accounts|
      && (j <= i ==> BoundTo(names, next, j, key))
      && (j > i ==> Assignable(next.accounts[j]))
      && (j > i ==> key == keys[(turn + 1 + Turns(next.accounts, i + 1, j)) % |keys|])
  {
    var mine := keys[turn % |keys|];
    assert Live(c, mine);
    var next := OnNode(names, c, i, mine, name, false);
    OnNodeBinds(names, c, i, mine, name, false);
    OnNodeKeepsInjective(names, c, i, mine, name, false);
    if j < i {
      OnNodeKeepsListeners(names, c, i, mine, name, false, key);
    } else if j > i {
      SameTurns(c.accounts, next.accounts, i + 1, j);
    }
  }

  /** After a successful assignment the assignable accounts are on the usable nodes in turn. */
  lemma AssignAssigns(names: Names, c: Config, failed: string -> bool, nodeKeys: seq<string>, freed: Config, j: nat)
    requires Sound(names) && Injective(c.portMap) && Assign(names, c, failed, nodeKeys).Done?
    requires freed == Gc(names, Freed(names, c)) && j < |freed.accounts| && Assignable(freed.accounts[j])
    ensures var keys := UsableKeys(names, failed, nodeKeys, {});
      && keys != []
      && BoundTo(names, Assign(names, c, failed, nodeKeys).config, j, keys[Turns(freed.accounts, 0, j) % |keys|])
  {
    AssignedIs(names, c, failed, nodeKeys, freed);
    GcKeepsInjective(names, Freed(names, c));
    InTurnAndCollected(names, freed, UsableKeys(names, failed, nodeKeys, {}), j);
  }

  lemma AssignedIs(names: Names, c: Config, failed: string -> bool, nodeKeys: seq<string>, freed: Config)
    requires Assign(names, c, failed, nodeKeys).Done? && freed == Gc(names, Freed(names, c))
    ensures var keys := UsableKeys(names, failed, nodeKeys, {});
      && keys != [] && (forall i | 0 <= i < |keys| :: Live(freed, keys[i]))
      && Assign(names, c, failed, nodeKeys).config == Gc(names, AssignFrom(names, freed, keys, 0, 0))
  {
    assert freed.subscriptions == c.subscriptions;
  }

  lemma InTurnAndCollected(names: Names, c: Config, keys: seq<string>, j: nat)
    requires Sound(names) && Injective(c.portMap) && keys != [] && j < |c.accounts| && Assignable(c.accounts[j])
    requires forall i | 0 <= i < |keys| :: Live(c, keys[i])
    ensures BoundTo(names, Gc(names, AssignFrom(names, c, keys, 0, 0)), j, keys[Turns(c.accounts, 0, j) % |keys|])
  {
    var key := keys[Turns(c.accounts, 0, j) % |keys|];
    assert forall k | k in keys :: Live(c, k);
    AssignGoesRound(names, c, keys, 0, 0, j, key);
    BindingSurvivesGc(names, AssignFrom(names, c, keys, 0, 0), j, key);
  }

  // ---------------------------------------------------------------- every proxy on its own node's port

  /** The proxy listens on the port of its own node, which is live. */
  ghost predicate IsBacked(names: Names, c: Config, p: Proxy) {
    exists key :: key in c.portMap && names.proxyID(key) == names.trim(p.id) && p.port == c.portMap[key] && Live(c, key)
  }

  ghost predicate Backed(names: Names, c: Config) {
    forall p | p in c.proxies && IsManaged(names, p.id) :: IsBacked(names, c, p)
  }

  /** Then no two nodes' proxies share a port, so an account's traffic leaves through its own node. */
  lemma BackedProxiesDiffer(names: Names, c: Config, p: Proxy, q: Proxy)
    requires Backed(names, c) && Injective(c.portMap)
    requires p in c.proxies && q in c.proxies && IsManaged(names, p.id) && IsManaged(names, q.id)
    ensures names.trim(p.id) != names.trim(q.id) ==> p.port != q.port
  {
    assert IsBacked(names, c, p) && IsBacked(names, c, q);
  }

  /** A collection leaves every proxy backed exactly when the ones in use were. */
  lemma GcIsBackedIff(names: Names, c: Config)
    requires Sound(names)
    ensures Backed(names, Gc(names, c)) <==>
            forall p | p in c.proxies && IsManaged(names, p.id) && References(names, c, names.trim(p.id)) ::
              IsBacked(names, c, p)
  {
    var g := Gc(names, c);
    forall p: Proxy | IsManaged(names, p.id)
      ensures p in g.proxies <==> p in c.proxies && References(names, c, names.trim(p.id))
      ensures p in g.proxies ==> (IsBacked(names, g, p) <==> IsBacked(names, c, p))
    {
      GcKeepsProxies(names, c, p);
      if p in g.proxies {
        GcKeepsBacking(names, c, p);
      }
    }
  }

  lemma GcKeepsBacking(names: Names, c: Config, p: Proxy)
    requires Sound(names) && p in c.proxies && IsManaged(names, p.id) && References(names, c, names.trim(p.id))
    ensures IsBacked(names, Gc(names, c), p) <==> IsBacked(names, c, p)
  {
    var g := Gc(names, c);
    forall key | names.proxyID(key) == names.trim(p.id)
      ensures key in g.portMap <==> key in c.portMap && Live(c, key)
      ensures key in g.portMap ==> g.portMap[key] == c.portMap[key]
    {
      GcKeepsPorts(names, c, key);
    }
    assert forall key :: Live(g, key) == Live(c, key);
  }

  lemma OnNodeKeepsBacked(names: Names, c: Config, i: nat, key: string, name: string, manual: bool)
    requires Sound(names) && Injective(c.portMap) && Backed(names, c) && Live(c, key) && i < |c.accounts|
    ensures Backed(names, OnNode(names, c, i, key, name, manual))
  {
    AllocationKeepsInjective(c, key);
    var (port, ported) := Allocated(c, key);
    var (k, proxied) := Upserted(names, ported, key, name, port);
    var d := OnNode(names, c, i, key, name, manual);
    forall p | p in d.proxies && IsManaged(names, p.id)
      ensures IsBacked(names, d, p)
    {
      if p == proxied.proxies[k] {
        assert key in d.portMap && p.port == d.portMap[key] && Live(d, key);
      } else {
        assert p in c.proxies && IsBacked(names, c, p);
        var own :| own in c.portMap && names.proxyID(own) == names.trim(p.id) && p.port == c.portMap[own] &&
          Live(c, own);
        assert own in d.portMap && p.port == d.portMap[own] && Live(d, own);
      }
    }
  }

  lemma {:induction false} AssignKeepsBacked(names: Names, c: Config, keys: seq<string>, i: nat, turn: nat)
    requires Sound(names) && i <= |c.accounts| && keys != [] && Injective(c.portMap) && Backed(names, c)
    ensures Backed(names, AssignFrom(names, c, keys, i, turn))
    decreases |c.accounts| - i
  {
    if i < |c.accounts| {
      if Assignable(c.accounts[i]) {
        var key := keys[turn % |keys|];
        var node := FindNode(c.subscriptions, key);
        if node.Some? {
          OnNodeKeepsBacked(names, c, i, key, node.value.name, false);
          OnNodeKeepsInjective(names, c, i, key, node.value.name, false);
        }
        AssignKeepsBacked(names, IfLive(names, c, i, key), keys, i + 1, turn + 1);
      } else {
        AssignKeepsBacked(names, c, keys, i + 1, turn);
      }
    }
  }

  /** Only the proxies and the port map matter, with nodes that stay live. */
  lemma CollectedIsBacked(names: Names, c: Config, d: Config)
    requires Sound(names) && Backed(names, c) && d.proxies == c.proxies && d.portMap == c.portMap &&
      d.subscriptions == c.subscriptions
    ensures Backed(names, Gc(names, d))
  {
    forall p | p in c.proxies && IsManaged(names, p.id) ensures IsBacked(names, d, p) {
      assert IsBacked(names, c, p);
      var key :| key in c.portMap && names.proxyID(key) == names.trim(p.id) && p.port == c.portMap[key] && Live(c, key);
      assert Live(d, key);
    }
    GcIsBackedIff(names, d);
  }

  /** A deleted subscription takes the proxies of its nodes with it. */
  lemma DeletionKeepsBacked(names: Names, c: Config, subID: string, k: nat)
    requires Sound(names) && Backed(names, c) && k < |c.subscriptions| && c.subscriptions[k].id == subID
    ensures Backed(names, Gc(names, Unsubscribed(names, c, subID, k)))
  {
    var u := Unsubscribed(names, c, subID, k);
    forall p | p in u.proxies && IsManaged(names, p.id) && References(names, u, names.trim(p.id))
      ensures IsBacked(names, u, p)
    {
      assert IsBacked(names, c, p);
      var key :| key in c.portMap && names.proxyID(key) == names.trim(p.id) && p.port == c.portMap[key] && Live(c, key);
      if !Live(u, key) {
        OnlyItsNodesDie(c.subscriptions, k, key);
        assert names.proxyID(key) in DeadProxies(names, c, subID);
        NoneLeftOn(names, c, subID, k, names.trim(p.id));
      }
    }
    GcIsBackedIff(names, u);
  }

  lemma NoneLeftOn(names: Names, c: Config, subID: string, k: nat, id: string)
    requires Sound(names) && k < |c.subscriptions| && id in DeadProxies(names, c, subID) && MANAGED_PREFIX <= id
    ensures !References(names, Unsubscribed(names, c, subID, k), id)
  {
    var u, dead := Unsubscribed(names, c, subID, k), DeadProxies(names, c, subID);
    forall a | a in u.accounts ensures names.trim(a.proxyID) != id {
      var i :| 0 <= i < |u.accounts| && u.accounts[i] == a;
      assert a == Detached(names, c.accounts[i], dead);
    }
  }

  /** Removing a subscription ends only nodes whose key begins with its identifier and "::". */
  lemma OnlyItsNodesDie(subs: seq<Subscription>, k: nat, key: string)
    requires k < |subs| && FindNode(subs, key).Some? && FindNode(subs[..k] + subs[k + 1..], key) == None
    ensures subs[k].id + "::" <= key
  {
    var (sub, name) := SplitNodeKey(key);
    if subs[k].id != sub {
      FoundWithout(subs, k, sub, name);
    }
    var at := Separator(key, 0);
    assert key == key[..at] + "::" + key[at + 2..];
  }

  lemma {:induction false} FoundWithout(subs: seq<Subscription>, k: nat, sub: string, name: string)
    requires k < |subs| && subs[k].id != sub
    ensures FindInSubscriptions(subs[..k] + subs[k + 1..], sub, name) == FindInSubscriptions(subs, sub, name)
    decreases k
  {
    if k == 0 {
      assert subs[..0] + subs[1..] == subs[1..];
    } else {
      FoundWithout(subs[1..], k - 1, sub, name);
      assert (subs[..k] + subs[k + 1..])[1..] == subs[1..][..k - 1] + subs[1..][k..];
    }
  }

  function WithNodes(c: Config, k: nat, nodes: seq<Node>): Config
    requires k < |c.subscriptions|
  {
    c.(subscriptions := c.subscriptions[k := c.subscriptions[k].(nodes := nodes)])
  }

  /** Whether the new nodes still contain every node that an account is bound to. */
  ghost predicate KeepsBoundNodes(names: Names, c: Config, k: nat, nodes: seq<Node>)
    requires k < |c.subscriptions|
  {
    forall key | key in c.portMap && HasProxy(names, c, names.proxyID(key)) &&
      References(names, c, names.proxyID(key)) ::
      Live(WithNodes(c, k, nodes), key)
  }

  /** A refresh keeps every proxy on its own node's port exactly when no bound node is missing from the new list. */
  lemma RefreshKeepsBackedIff(names: Names, c: Config, k: nat, nodes: seq<Node>)
    requires Sound(names) && Backed(names, c) && k < |c.subscriptions|
    ensures Backed(names, Gc(names, WithNodes(c, k, nodes))) <==> KeepsBoundNodes(names, c, k, nodes)
  {
    var d := WithNodes(c, k, nodes);
    GcIsBackedIff(names, d);
    forall p | p in c.proxies && IsManaged(names, p.id) && References(names, c, names.trim(p.id))
      ensures exists key ::
        key in c.portMap && names.proxyID(key) == names.trim(p.id) && (IsBacked(names, d, p) <==> Live(d, key))
    {
      assert IsBacked(names, c, p);
      var key :| key in c.portMap && names.proxyID(key) == names.trim(p.id) && p.port == c.portMap[key] && Live(c, key);
      assert IsBacked(names, d, p) ==> Live(d, key);
    }
    if Backed(names, Gc(names, d)) {
      forall key | key in c.portMap && HasProxy(names, c, names.proxyID(key)) &&
        References(names, c, names.proxyID(key))
        ensures Live(d, key)
      {
        var p :| p in c.proxies && names.trim(p.id) == names.proxyID(key);
        assert References(names, d, names.trim(p.id)) && IsBacked(names, d, p);
      }
    }
  }

  /** The refreshes of a run keep the nodes in use. */
  ghost predicate KeepsNodes(names: Names, c: Config, t: Transaction) {
    t.Refreshing? ==>
      var k := SubscriptionFrom(c.subscriptions, t.subID, 0);
      k < |c.subscriptions| ==> KeepsBoundNodes(names, c, k, t.nodes)
  }

  lemma TransactionKeepsBacked(names: Names, c: Config, t: Transaction)
    requires Sound(names) && Injective(c.portMap) && Backed(names, c) && KeepsNodes(names, c, t)
    ensures Backed(names, Apply(names, c, t))
  {
    match t
    case Binding(identifier, nodeKey) => BindKeepsBacked(names, c, identifier, nodeKey);
    case Assigning(failed, nodeKeys) =>
      var keys := UsableKeys(names, failed, nodeKeys, {});
      if keys != [] {
        var g := Gc(names, Freed(names, c));
        CollectedIsBacked(names, c, Freed(names, c));
        GcKeepsInjective(names, Freed(names, c));
        AssignKeepsBacked(names, g, keys, 0, 0);
        CollectedIsBacked(names, AssignFrom(names, g, keys, 0, 0), AssignFrom(names, g, keys, 0, 0));
      }
    case Collecting => CollectedIsBacked(names, c, c);
    case Configuring(enabled, basePort, apiPort) =>
      var cleared := Gc(names, AllUnmanaged(names, c));
      CollectedIsBacked(names, c, AllUnmanaged(names, c));
      PortsKeepBacked(names, if enabled then c else cleared, basePort, apiPort);
    case Deleting(id) =>
      var k := SubscriptionFrom(c.subscriptions, names.trim(id), 0);
      if k < |c.subscriptions| {
        DeletionKeepsBacked(names, c, names.trim(id), k);
      }
    case Refreshing(id, nodes) =>
      var k := SubscriptionFrom(c.subscriptions, id, 0);
      if k < |c.subscriptions| {
        RefreshKeepsBackedIff(names, c, k, nodes);
      }
  }

  lemma PortsKeepBacked(names: Names, c: Config, basePort: int, apiPort: int)
    requires Backed(names, c)
    ensures Backed(names, WithPorts(c, basePort, apiPort))
  {
    var d := WithPorts(c, basePort, apiPort);
    forall p | p in d.proxies && IsManaged(names, p.id) ensures IsBacked(names, d, p) {
      assert IsBacked(names, c, p);
      var key :| key in c.portMap && names.proxyID(key) == names.trim(p.id) && p.port == c.portMap[key] && Live(c, key);
      assert key in d.portMap && p.port == d.portMap[key] && Live(d, key);
    }
  }

  lemma BindKeepsBacked(names: Names, c: Config, identifier: string, nodeKey: string)
    requires Sound(names) && Injective(c.portMap) && Backed(names, c)
    ensures Bind(names, c, identifier, nodeKey).Done? ==> Backed(names, Bind(names, c, identifier, nodeKey).config)
  {
    var key := names.trim(nodeKey);
    var i := AccountFrom(names, c.accounts, names.trim(identifier), 0);
    var node := FindNode(c.subscriptions, key);
    if i < |c.accounts| && key == "" {
      CollectedIsBacked(names, c, c.(accounts := c.accounts[i := Unbound(c.accounts[i])]));
    } else if i < |c.accounts| && node.Some? {
      var d := OnNode(names, c, i, key, node.value.name, true);
      OnNodeKeepsBacked(names, c, i, key, node.value.name, true);
      CollectedIsBacked(names, d, d);
    }
  }

  ghost predicate AllKeepNodes(names: Names, c: Config, ts: seq<Transaction>)
    decreases |ts|
  {
    ts == [] || (KeepsNodes(names, c, ts[0]) && AllKeepNodes(names, Apply(names, c, ts[0]), ts[1..]))
  }

  /** Over any sequence of transactions whose refreshes keep the nodes in use, every managed proxy stays on its
      own node's port. */
  lemma {:induction false} ProxiesStayBacked(names: Names, c: Config, ts: seq<Transaction>)
    requires Sound(names) && Injective(c.portMap) && Backed(names, c) && AllKeepNodes(names, c, ts)
    ensures Backed(names, ApplyAll(names, c, ts))
    decreases |ts|
  {
    if ts != [] {
      TransactionKeepsBacked(names, c, ts[0]);
      TransactionKeepsInjective(names, c, ts[0]);
      ProxiesStayBacked(names, Apply(names, c, ts[0]), ts[1..]);
    }
  }

  // ---------------------------------------------------------------- where the documentation promises more

  /** A refresh that drops a node takes its port away, but an account bound to it stays bound. */
  lemma StaleBindingSurvives(names: Names, c: Config, i: nat, key: string)
    requires Sound(names) && BoundTo(names, c, i, key) && !Live(c, key)
    ensures var g := Gc(names, c);
      key !in g.portMap && g.accounts[i] == c.accounts[i] && HasProxy(names, g, names.proxyID(key)) &&
        !BoundTo(names, g, i, key)
  {
    var a := c.accounts[i];
    assert a in c.accounts && References(names, c, names.proxyID(key));
    GcKeepsPorts(names, c, key);
    GcKeepsBindings(names, c, i);
    GcKeepsIds(names, c, names.proxyID(key));
  }

  /** The freed port may then go to another node, whose listener the stale proxy shares from there on. */
  lemma StalePortIsShared(names: Names, c: Config, i: nat, key: string, j: nat, other: string, name: string)
    requires Sound(names) && Injective(c.portMap) && BoundTo(names, c, i, key) && !Live(c, key)
    requires j < |c.accounts| && j != i
    requires other !in Gc(names, c).portMap && other != key
    requires var g := Gc(names, c); LeastFree(Taken(g), Base(g)) == c.portMap[key]
    ensures var d := OnNode(names, Gc(names, c), j, other, name, false);
      && d.portMap[other] == c.portMap[key] && names.trim(d.accounts[i].proxyID) == names.proxyID(key)
      && exists p | p in d.proxies :: names.trim(p.id) == names.proxyID(key) && p.port == d.portMap[other]
  {
    var g := Gc(names, c);
    StaleBindingSurvives(names, c, i, key);
    GcKeepsInjective(names, c);
    OnNodeBinds(names, g, j, other, name, false);
    var p := StaleProxy(names, c, i, key);
    OtherProxyStays(names, g, j, other, name, p);
  }

  lemma StaleProxy(names: Names, c: Config, i: nat, key: string) returns (p: Proxy)
    requires Sound(names) && BoundTo(names, c, i, key)
    ensures p in Gc(names, c).proxies && names.trim(p.id) == names.proxyID(key) && p.port == c.portMap[key]
  {
    p :| p in c.proxies && names.trim(p.id) == names.proxyID(key) && p.port == c.portMap[key];
    assert c.accounts[i] in c.accounts && References(names, c, names.trim(p.id));
    GcKeepsProxies(names, c, p);
  }

  lemma OtherProxyStays(names: Names, c: Config, j: nat, key: string, name: string, p: Proxy)
    requires Sound(names) && j < |c.accounts| && p in c.proxies && names.trim(p.id) != names.proxyID(key)
    ensures p in OnNode(names, c, j, key, name, false).proxies
  {
    var q :| 0 <= q < |c.proxies| && c.proxies[q] == p;
    assert OnNode(names, c, j, key, name, false).proxies[q] == p;
  }

  /** Deleting a subscription then frees an account of one of its nodes exactly when the node still has a port
      or the proxy is gone. */
  lemma DeletionFreesIff(names: Names, c: Config, subID: string, k: nat, i: nat, key: string)
    requires Sound(names) && k < |c.subscriptions| && i < |c.accounts|
    requires subID + "::" <= key && names.trim(c.accounts[i].proxyID) == names.proxyID(key)
    ensures Gc(names, Unsubscribed(names, c, subID, k)).accounts[i].proxyID == "" <==>
            key in c.portMap || !HasProxy(names, c, names.proxyID(key))
  {
    var u := Unsubscribed(names, c, subID, k);
    var dead := DeadProxies(names, c, subID);
    GcKeepsBindings(names, u, i);
    if names.proxyID(key) in dead {
      var other :| other in c.portMap && subID + "::" <= other && names.proxyID(other) == names.proxyID(key);
      assert other == key;
    }
    assert HasProxy(names, u, names.proxyID(key)) <==> HasProxy(names, c, names.proxyID(key));
    assert names.trim(c.accounts[i].proxyID) != "" by {
      assert IsManaged(names, names.proxyID(key));
    }
  }

  // ---------------------------------------------------------------- listeners and the API port

  /** Every mapped port is at least the base, and none is the API port. */
  ghost predicate Apart(c: Config) {
    c.apiPort > 0 && forall k | k in c.portMap :: Base(c) <= c.portMap[k] != c.apiPort
  }

  /** The settings that the validator lets through although the new API port is a mapped one: it looks only so
      far above the base as there are ports now, and ports were given out when there were more. */
  predicate Slips(c: Config, t: Transaction) {
    t.Configuring? && t.enabled && t.apiPort > 0 && Uses(c.portMap, t.apiPort) &&
      t.apiPort >= Base(c) + |c.portMap| + 16
  }

  /** Settings of a running bridge put the API port on a mapped one exactly when they slip through. */
  lemma SettingsClashIff(names: Names, c: Config, t: Transaction)
    requires Apart(c) && t.Configuring? && t.enabled && Result(names, c, t).Done?
    ensures Apart(Result(names, c, t).config) <==> !Slips(c, t)
  {
    var d := Result(names, c, t).config;
    assert d.portMap == c.portMap && Base(d) == d.basePort && (c.portMap != map[] ==> d.basePort == Base(c));
    if Slips(c, t) {
      var k :| k in c.portMap && c.portMap[k] == t.apiPort;
      assert d.portMap[k] == d.apiPort;
    } else {
      forall k | k in d.portMap ensures Base(d) <= d.portMap[k] != d.apiPort {
        assert d.portMap[k] == d.apiPort ==> Uses(d.portMap, d.apiPort);
      }
    }
  }

  lemma OnNodePorts(names: Names, c: Config, i: nat, key: string, name: string, manual: bool)
    requires i < |c.accounts|
    ensures var d := OnNode(names, c, i, key, name, manual);
      d.portMap == Allocated(c, key).1.portMap && d.basePort == c.basePort && d.apiPort == c.apiPort
  {
  }

  lemma AllocationKeepsApart(c: Config, key: string)
    requires Apart(c)
    ensures Apart(c.(portMap := Allocated(c, key).1.portMap))
  {
    FreshPort(c);
  }

  lemma OnNodeKeepsApart(names: Names, c: Config, i: nat, key: string, name: string, manual: bool)
    requires Apart(c) && i < |c.accounts|
    ensures Apart(OnNode(names, c, i, key, name, manual))
  {
    OnNodePorts(names, c, i, key, name, manual);
    AllocationKeepsApart(c, key);
  }

  lemma {:induction false} AssignKeepsApart(names: Names, c: Config, keys: seq<string>, i: nat, turn: nat)
    requires i <= |c.accounts| && keys != [] && Apart(c)
    ensures Apart(AssignFrom(names, c, keys, i, turn))
    decreases |c.accounts| - i
  {
    if i < |c.accounts| {
      if Assignable(c.accounts[i]) {
        var key := keys[turn % |keys|];
        var node := FindNode(c.subscriptions, key);
        if node.Some? {
          OnNodeKeepsApart(names, c, i, key, node.value.name, false);
        }
        AssignKeepsApart(names, IfLive(names, c, i, key), keys, i + 1, turn + 1);
      } else {
        AssignKeepsApart(names, c, keys, i + 1, turn);
      }
    }
  }

  lemma GcKeepsApart(names: Names, c: Config)
    requires Apart(c)
    ensures Apart(Gc(names, c))
  {
  }

  /** No other transaction ever puts the API port into the port map. */
  lemma TransactionKeepsApart(names: Names, c: Config, t: Transaction)
    requires Sound(names) && Apart(c) && !Slips(c, t)
    ensures Apart(Apply(names, c, t))
  {
    match t
    case Binding(identifier, nodeKey) => BindKeepsApart(names, c, identifier, nodeKey);
    case Assigning(failed, nodeKeys) =>
      var keys := UsableKeys(names, failed, nodeKeys, {});
      if keys != [] {
        GcKeepsApart(names, Freed(names, c));
        AssignKeepsApart(names, Gc(names, Freed(names, c)), keys, 0, 0);
        GcKeepsApart(names, AssignFrom(names, Gc(names, Freed(names, c)), keys, 0, 0));
      }
    case Collecting => GcKeepsApart(names, c);
    case Deleting(id) =>
      var k := SubscriptionFrom(c.subscriptions, names.trim(id), 0);
      if k < |c.subscriptions| {
        GcKeepsApart(names, Unsubscribed(names, c, names.trim(id), k));
      }
    case Refreshing(id, nodes) =>
      var k := SubscriptionFrom(c.subscriptions, id, 0);
      if k < |c.subscriptions| {
        GcKeepsApart(names, WithNodes(c, k, nodes));
      }
    case Configuring(enabled, basePort, apiPort) =>
      if enabled && Result(names, c, t).Done? {
        SettingsClashIff(names, c, t);
      } else if Result(names, c, t).Done? {
        NothingMappedWhenCleared(names, c);
      }
  }

  lemma BindKeepsApart(names: Names, c: Config, identifier: string, nodeKey: string)
    requires Apart(c)
    ensures Bind(names, c, identifier, nodeKey).Done? ==> Apart(Bind(names, c, identifier, nodeKey).config)
  {
    var key := names.trim(nodeKey);
    var i := AccountFrom(names, c.accounts, names.trim(identifier), 0);
    var node := FindNode(c.subscriptions, key);
    if i < |c.accounts| && key != "" && node.Some? {
      OnNodeKeepsApart(names, c, i, key, node.value.name, true);
      GcKeepsApart(names, OnNode(names, c, i, key, node.value.name, true));
    }
  }

  /** Once no account references a managed proxy, no port stays mapped. */
  lemma NothingMappedWhenCleared(names: Names, c: Config)
    requires Sound(names)
    ensures Gc(names, AllUnmanaged(names, c)).portMap == map[]
  {
    var u := AllUnmanaged(names, c);
    forall k ensures k !in Gc(names, u).portMap {
      GcKeepsPorts(names, u, k);
      forall a | a in u.accounts ensures names.trim(a.proxyID) != names.proxyID(k) {
        var i :| 0 <= i < |u.accounts| && u.accounts[i] == a;
        assert a == Unmanaged(names, c.accounts[i]);
      }
    }
  }

  ghost predicate NoneSlips(names: Names, c: Config, ts: seq<Transaction>)
    decreases |ts|
  {
    ts == [] || (!Slips(c, ts[0]) && NoneSlips(names, Apply(names, c, ts[0]), ts[1..]))
  }

  /** Over any sequence of transactions in which no settings slip through, no listener is on the API port. */
  lemma {:induction false} ListenersStayApart(names: Names, c: Config, ts: seq<Transaction>)
    requires Sound(names) && Apart(c) && NoneSlips(names, c, ts)
    ensures Apart(ApplyAll(names, c, ts))
    decreases |ts|
  {
    if ts != [] {
      TransactionKeepsApart(names, c, ts[0]);
      ListenersStayApart(names, Apply(names, c, ts[0]), ts[1..]);
    }
  }

  // ---------------------------------------------------------------- the configuration, edited in place

  /** The search loop of AllocateMihomoPort. */
  method FirstFree(used: set<int>, base: int) returns (port: int)
    ensures port == LeastFree(used, base)
  {
    port := base;
    while port in used
      invariant base <= port <= LeastFree(used, base)
      decreases LeastFree(used, base) - port
    {
      port := port + 1;
    }
    if port < LeastFree(used, base) {
      LeastFreeIsLeast(used, base, port);
    }
  }

  class Settings {
    const names: Names
    var accounts: seq<Account>
    var proxies: seq<Proxy>
    var portMap: map<string, int>
    var subscriptions: seq<Subscription>
    var basePort: int
    var apiPort: int

    function Now(): Config
      reads this
    {
      Config(accounts, proxies, portMap, subscriptions, basePort, apiPort)
    }

    constructor (names: Names, c: Config)
      ensures Now() == c && this.names == names
    {
      this.names := names;
      accounts, proxies, portMap, subscriptions, basePort, apiPort :=
        c.accounts, c.proxies, c.portMap, c.subscriptions, c.basePort, c.apiPort;
    }

    method AllocatePort(key: string) returns (port: int)
      modifies this`portMap
      ensures (port, Now()) == Allocated(old(Now()), key)
    {
      if key in portMap && portMap[key] > 0 {
        return portMap[key];
      }
      var used := UsedPorts();
      port := FirstFree(used, Base(Now()));
      portMap := portMap[key := port];
    }

    method UsedPorts() returns (used: set<int>)
      ensures used == Taken(Now())
    {
      used := {};
      var todo := portMap;
      while todo != map[]
        invariant used + Ports(todo) == Ports(portMap)
        decreases |todo|
      {
        var k :| k in todo;
        PortsWithout(todo, k);
        used := used + {todo[k]};
        todo := todo - {k};
      }
      if apiPort > 0 {
        used := used + {apiPort};
      }
    }

    method UpsertManagedProxy(key: string, name: string, port: int) returns (proxy: Proxy)
      modifies this`proxies
      ensures var (k, c) := Upserted(names, old(Now()), key, name, port); Now() == c && proxy == c.proxies[k]
    {
      var id := names.proxyID(key);
      for i := 0 to |proxies|
        invariant proxies == old(proxies) && ProxyFrom(names, proxies, id, 0) == ProxyFrom(names, proxies, id, i)
      {
        if names.trim(proxies[i].id) == id {
          proxy := Listener(proxies[i], name, port);
          proxies := proxies[i := proxy];
          return;
        }
      }
      proxy := Listener(Proxy(id, "", "", "", 0), name, port);
      proxies := proxies + [proxy];
    }

    /** gcLocked, in its four passes. */
    method Collect()
      modifies this
      ensures Now() == Gc(names, old(Now()))
    {
      portMap := LivePorts(Now());
      var used := Referenced(names, accounts);
      proxies := KeptProxies(names, proxies, used);
      var existing := Existing(names, proxies);
      ClearMissing(existing);
      portMap := PortsWithProxy(names, portMap, existing);
    }

    method ClearMissing(existing: set<string>)
      modifies this`accounts
      ensures accounts == ClearAll(names, old(accounts), existing)
    {
      for i := 0 to |accounts|
        invariant |accounts| == |old(accounts)|
        invariant forall j | 0 <= j < |accounts| ::
          accounts[j] == if j < i then Cleared(names, old(accounts)[j], existing) else old(accounts)[j]
      {
        if IsManaged(names, accounts[i].proxyID) && names.trim(accounts[i].proxyID) !in existing {
          accounts := accounts[i := accounts[i].(proxyID := "", manualBinding := false)];
        }
      }
    }

    method PutOnNode(i: nat, key: string, name: string, manual: bool)
      requires i < |accounts|
      modifies this
      ensures Now() == OnNode(names, old(Now()), i, key, name, manual)
    {
      var port := AllocatePort(key);
      var proxy := UpsertManagedProxy(key, name, port);
      var a := accounts[i].(proxyID := proxy.id, cooldownUntil := 0);
      if manual {
        a := a.(noProxy := false, manualBinding := true);
      }
      accounts := accounts[i := a];
    }

    method Restore(c: Config)
      modifies this
      ensures Now() == c
    {
      accounts, proxies, portMap, subscriptions, basePort, apiPort :=
        c.accounts, c.proxies, c.portMap, c.subscriptions, c.basePort, c.apiPort;
    }

    /** The end of a transaction: collect, validate, or put everything back. */
    method Close(before: Config) returns (err: Option<Error>)
      modifies this
      ensures var r := Commit(names, Gc(names, old(Now())));
        err == (if r.Done? then None else Some(Invalid)) && Now() == if r.Done? then r.config else before
    {
      Collect();
      err := Validate(before);
    }

    method Validate(before: Config) returns (err: Option<Error>)
      modifies this
      ensures var r := Commit(names, old(Now()));
        err == (if r.Done? then None else Some(Invalid)) && Now() == if r.Done? then r.config else before
    {
      if names.valid(Now()) && !ApiPortRejected(Now()) {
        return None;
      }
      Restore(before);
      return Some(Invalid);
    }

    method BindAccount(identifier: string, nodeKey: string) returns (err: Option<Error>)
      modifies this
      ensures var r := Bind(names, old(Now()), identifier, nodeKey);
        err == (if r.Done? then None else Some(r.error)) && Now() == if r.Done? then r.config else old(Now())
    {
      var before := Now();
      var id, key := names.trim(identifier), names.trim(nodeKey);
      var idx := |accounts|;
      for i := 0 to |accounts|
        invariant AccountFrom(names, accounts, id, 0) == AccountFrom(names, accounts, id, i) && idx == |accounts|
      {
        if names.matches(accounts[i], id) {
          idx := i;
          break;
        }
      }
      if idx == |accounts| {
        return Some(NoAccount);
      }
      if key == "" {
        accounts := accounts[idx := Unbound(accounts[idx])];
        err := Close(before);
        return;
      }
      var node := FindNode(subscriptions, key);
      if node == None {
        return Some(NoNode);
      }
      PutOnNode(idx, key, node.value.name, true);
      err := Close(before);
    }

    method ClearManaged()
      modifies this
      ensures Now() == Gc(names, AllUnmanaged(names, old(Now())))
    {
      for i := 0 to |accounts|
        invariant |accounts| == |old(accounts)| && Now() == old(Now()).(accounts := accounts)
        invariant forall j | 0 <= j < |accounts| ::
          accounts[j] == if j < i then Unmanaged(names, old(accounts)[j]) else old(accounts)[j]
      {
        if IsManaged(names, accounts[i].proxyID) {
          accounts := accounts[i := accounts[i].(proxyID := "", manualBinding := false, cooldownUntil := 0)];
        }
      }
      assert accounts == AllUnmanaged(names, old(Now())).accounts;
      Collect();
    }

    method UpdateSettings(enabled: bool, basePort: int, apiPort: int) returns (err: Option<Error>)
      modifies this
      ensures var r := Configure(names, old(Now()), enabled, basePort, apiPort);
        err == (if r.Done? then None else Some(r.error)) && Now() == if r.Done? then r.config else old(Now())
    {
      var before := Now();
      if basePort > 0 && basePort != this.basePort && |portMap| > 0 {
        return Some(PortsInUse);
      }
      if !enabled {
        ClearManaged();
      }
      this.basePort := if basePort > 0 then basePort else if this.basePort > 0 then this.basePort
        else DEFAULT_BASE_PORT;
      this.apiPort := if apiPort > 0 then apiPort else if this.apiPort > 0 then this.apiPort else DEFAULT_API_PORT;
      err := Validate(before);
    }

    /** The assignment loop of AssignAccounts. */
    method AssignInTurn(keys: seq<string>) returns (bound: nat)
      requires keys != [] && forall k | k in keys :: Live(Now(), k)
      modifies this
      ensures Now() == AssignFrom(names, old(Now()), keys, 0, 0)
      ensures bound == Turns(old(accounts), 0, |old(accounts)|)
    {
      bound := 0;
      for i := 0 to |accounts|
        invariant |accounts| == |old(accounts)| && subscriptions == old(subscriptions)
        invariant forall j | i <= j < |accounts| :: accounts[j] == old(accounts)[j]
        invariant bound + Turns(old(accounts), i, |old(accounts)|) == Turns(old(accounts), 0, |old(accounts)|)
        invariant AssignFrom(names, Now(), keys, i, bound) == AssignFrom(names, old(Now()), keys, 0, 0)
      {
        if !Assignable(accounts[i]) {
          continue;
        }
        var key := keys[bound % |keys|];
        assert Live(old(Now()), key);
        var node := FindNode(subscriptions, key);
        PutOnNode(i, key, node.value.name, false);
        bound := bound + 1;
      }
    }
  }

  lemma PortsWithout(ports: map<string, int>, k: string)
    requires k in ports
    ensures Ports(ports) == Ports(ports - {k}) + {ports[k]}
  {
    forall x | x in Ports(ports) ensures x in Ports(ports - {k}) + {ports[k]} {
      var j :| j in ports && ports[j] == x;
      assert j != k ==> j in ports - {k} && (ports - {k})[j] == x;
    }
  }
}
