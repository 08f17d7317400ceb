/** What binding and assigning of internal/mihomo/binding.go mean for one account over the transactions that follow. */
module BindingRules {

  import opened Basics
  import opened Binding

  // ---------------------------------------------------------------- who is meant

  lemma {:induction false} AccountFromFinds(names: Names, accounts: seq<Account>, id: string, i: nat)
    requires i <= |accounts|
    ensures forall j | i <= j < AccountFrom(names, accounts, id, i) :: !names.matches(accounts[j], id)
    decreases |accounts| - i
  {
    if i < |accounts| && !names.matches(accounts[i], id) {
      AccountFromFinds(names, accounts, id, i + 1);
    }
  }

  /** Binding fails for want of an account or of a live node, and only the validator can refuse it otherwise. */
  lemma BindFailsIff(names: Names, c: Config, identifier: string, nodeKey: string)
    ensures var r := Bind(names, c, identifier, nodeKey);
      var unknown := forall a | a in c.accounts :: !names.matches(a, names.trim(identifier));
      && (r == Failed(NoAccount) <==> unknown)
      && (r == Failed(NoNode) <==> !unknown && names.trim(nodeKey) != "" && !Live(c, names.trim(nodeKey)))
  {
    var id := names.trim(identifier);
    AccountFromFinds(names, c.accounts, id, 0);
    var i := AccountFrom(names, c.accounts, id, 0);
    assert i < |c.accounts| ==> c.accounts[i] in c.accounts;
  }

  lemma {:induction false} NodesHold(nodes: seq<Node>, name: string)
    ensures FindInNodes(nodes, name).Some? <==> exists i | 0 <= i < |nodes| :: nodes[i].name == name
  {
    if nodes != [] {
      NodesHold(nodes[1..], name);
      if i :| 0 <= i < |nodes| && nodes[i].name == name {
        assert i > 0 ==> nodes[1..][i - 1] == nodes[i];
      }
    }
  }

  lemma {:induction false} SubscriptionsHold(subs: seq<Subscription>, sub: string, name: string)
    ensures FindInSubscriptions(subs, sub, name).Some? <==> exists i, j |
      0 <= i < |subs| && 0 <= j < |subs[i].nodes| :: subs[i].id == sub && subs[i].nodes[j].name == name
  {
    if subs != [] {
      NodesHold(subs[0].nodes, name);
      SubscriptionsHold(subs[1..], sub, name);
      if i, j :| 0 <= i < |subs| && 0 <= j < |subs[i].nodes| && subs[i].id == sub && subs[i].nodes[j].name == name {
        assert i > 0 ==> subs[1..][i - 1] == subs[i];
      }
      var rest := subs[1..];
      if i, j :| 0 <= i < |rest| && 0 <= j < |rest[i].nodes| && rest[i].id == sub && rest[i].nodes[j].name == name {
        assert subs[i + 1] == rest[i];
      }
    }
  }

  /** A node is live when a subscription of that id lists a node of that name. */
  lemma LiveIff(c: Config, key: string)
    ensures var (sub, name) := SplitNodeKey(key);
      Live(c, key) <==> sub != "" && name != "" && exists i, j |
        0 <= i < |c.subscriptions| && 0 <= j < |c.subscriptions[i].nodes| ::
        c.subscriptions[i].id == sub && c.subscriptions[i].nodes[j].name == name
  {
    var (sub, name) := SplitNodeKey(key);
    SubscriptionsHold(c.subscriptions, sub, name);
  }

  // ---------------------------------------------------------------- a direct connection

  /** The account connects directly, and stays out of what binds accounts by itself. */
  predicate IsDirect(a: Account) {
    a.proxyID == "" && a.noProxy && !a.manualBinding
  }

  lemma BlankIsUnmanaged(names: Names)
    requires Sound(names)
    ensures !IsManaged(names, "") && forall k :: names.proxyID(k) != ""
  {
    assert forall k :: IsManaged(names, names.proxyID(k));
  }

  lemma GcKeepsDirect(names: Names, c: Config, i: nat)
    requires Sound(names) && i < |c.accounts| && c.accounts[i].proxyID == ""
    ensures |Gc(names, c).accounts| == |c.accounts| && Gc(names, c).accounts[i] == c.accounts[i]
  {
    BlankIsUnmanaged(names);
    GcKeepsBindings(names, c, i);
  }

  /** Binding an account to no node leaves it with a direct connection. */
  lemma UnboundIsDirect(names: Names, c: Config, identifier: string, nodeKey: string)
    requires Sound(names) && names.trim(nodeKey) == "" && Bind(names, c, identifier, nodeKey).Done?
    ensures var i := AccountFrom(names, c.accounts, names.trim(identifier), 0);
      var d := Bind(names, c, identifier, nodeKey).config;
      && i < |c.accounts| == |d.accounts| && IsDirect(d.accounts[i]) && d.accounts[i].cooldownUntil == 0
      && forall j | 0 <= j < |c.accounts| && j != i ::
        d.accounts[j] == c.accounts[j] || (IsManaged(names, c.accounts[j].proxyID) && d.accounts[j].proxyID == "")
  {
    var i := AccountFrom(names, c.accounts, names.trim(identifier), 0);
    var u := c.(accounts := c.accounts[i := Unbound(c.accounts[i])]);
    GcKeepsDirect(names, u, i);
    forall j | 0 <= j < |c.accounts| && j != i
      ensures var b := Gc(names, u).accounts[j];
        b == c.accounts[j] || (IsManaged(names, c.accounts[j].proxyID) && b.proxyID == "")
    {
      GcKeepsBindings(names, u, j);
    }
  }

  /** The transaction binds this very account. */
  predicate IsAbout(names: Names, c: Config, t: Transaction, i: nat) {
    t.Binding? && AccountFrom(names, c.accounts, names.trim(t.identifier), 0) == i
  }

  lemma {:induction false} AssignSkips(names: Names, c: Config, keys: seq<string>, i: nat, turn: nat, j: nat)
    requires i <= |c.accounts| && keys != [] && j < |c.accounts| && (j < i || !Assignable(c.accounts[j]))
    ensures var d := AssignFrom(names, c, keys, i, turn);
      |d.accounts| == |c.accounts| && d.accounts[j] == c.accounts[j]
    decreases |c.accounts| - i
  {
    if i < |c.accounts| {
      if Assignable(c.accounts[i]) {
        AssignSkips(names, IfLive(names, c, i, keys[turn % |keys|]), keys, i + 1, turn + 1, j);
      } else {
        AssignSkips(names, c, keys, i + 1, turn, j);
      }
    }
  }

  lemma AssignKeepsDirect(names: Names, c: Config, failed: string -> bool, nodeKeys: seq<string>, i: nat)
    requires Sound(names) && i < |c.accounts| && IsDirect(c.accounts[i]) && Assign(names, c, failed, nodeKeys).Done?
    ensures var d := Assign(names, c, failed, nodeKeys).config;
      |d.accounts| == |c.accounts| && d.accounts[i] == c.accounts[i]
  {
    var keys := UsableKeys(names, failed, nodeKeys, {});
    BlankIsUnmanaged(names);
    var f := Freed(names, c);
    assert f.accounts[i] == c.accounts[i];
    GcKeepsDirect(names, f, i);
    AssignSkips(names, Gc(names, f), keys, 0, 0, i);
    GcKeepsDirect(names, AssignFrom(names, Gc(names, f), keys, 0, 0), i);
  }

  lemma TransactionKeepsDirect(names: Names, c: Config, t: Transaction, i: nat)
    requires Sound(names) && i < |c.accounts| && IsDirect(c.accounts[i]) && !IsAbout(names, c, t, i)
    ensures var d := Apply(names, c, t); |d.accounts| == |c.accounts| && d.accounts[i] == c.accounts[i]
  {
    if Result(names, c, t).Done? {
      BlankIsUnmanaged(names);
      match t
      case Binding(identifier, nodeKey) => OtherBindKeepsDirect(names, c, identifier, nodeKey, i);
      case Assigning(failed, nodeKeys) => AssignKeepsDirect(names, c, failed, nodeKeys, i);
      case Deleting(id) =>
        var k := SubscriptionFrom(c.subscriptions, names.trim(id), 0);
        GcKeepsDirect(names, Unsubscribed(names, c, names.trim(id), k), i);
      case Refreshing(id, nodes) =>
        var k := SubscriptionFrom(c.subscriptions, id, 0);
        GcKeepsDirect(names, c.(subscriptions := c.subscriptions[k := c.subscriptions[k].(nodes := nodes)]), i);
      case Configuring(enabled, _, _) =>
        if !enabled {
          GcKeepsDirect(names, AllUnmanaged(names, c), i);
        }
      case Collecting => GcKeepsDirect(names, c, i);
    }
  }

  lemma OtherBindKeepsDirect(names: Names, c: Config, identifier: string, nodeKey: string, i: nat)
    requires Sound(names) && i < |c.accounts| && IsDirect(c.accounts[i]) && Bind(names, c, identifier, nodeKey).Done?
    requires AccountFrom(names, c.accounts, names.trim(identifier), 0) != i
    ensures var d := Bind(names, c, identifier, nodeKey).config;
      |d.accounts| == |c.accounts| && d.accounts[i] == c.accounts[i]
  {
    var k, key := AccountFrom(names, c.accounts, names.trim(identifier), 0), names.trim(nodeKey);
    var next := if key == "" then c.(accounts := c.accounts[k := Unbound(c.accounts[k])])
                else OnNode(names, c, k, key, FindNode(c.subscriptions, key).value.name, true);
    assert next.accounts[i] == c.accounts[i] && |next.accounts| == |c.accounts|;
    GcKeepsDirect(names, next, i);
  }

  /** No transaction of the run, when it comes, binds this account. */
  predicate LeavesAlone(names: Names, c: Config, ts: seq<Transaction>, i: nat)
    decreases |ts|
  {
    ts == [] || (!IsAbout(names, c, ts[0], i) && LeavesAlone(names, Apply(names, c, ts[0]), ts[1..], i))
  }

  /** An account with a direct connection keeps it until it is bound again, whatever is assigned, deleted, refreshed
      or collected. */
  lemma {:induction false} DirectStaysDirect(names: Names, c: Config, ts: seq<Transaction>, i: nat)
    requires Sound(names) && i < |c.accounts| && IsDirect(c.accounts[i]) && LeavesAlone(names, c, ts, i)
    ensures var d := ApplyAll(names, c, ts); |d.accounts| == |c.accounts| && d.accounts[i] == c.accounts[i]
    decreases |ts|
  {
    if ts != [] {
      TransactionKeepsDirect(names, c, ts[0], i);
      DirectStaysDirect(names, Apply(names, c, ts[0]), ts[1..], i);
    }
  }

  // ---------------------------------------------------------------- assignments

  /** Which accounts an assignment leaves to themselves: disabled ones, those without an identifier or with a direct
      connection, and those bound by hand, as long as the proxy is there. */
  lemma AssignLeaves(names: Names, c: Config, failed: string -> bool, nodeKeys: seq<string>, i: nat)
    requires Sound(names) && i < |c.accounts| && Assign(names, c, failed, nodeKeys).Done?
    requires var a := c.accounts[i];
      a.disabled || a.identifier == "" || a.noProxy ||
      (a.manualBinding && (IsManaged(names, a.proxyID) ==> HasProxy(names, c, names.trim(a.proxyID))))
    ensures var d := Assign(names, c, failed, nodeKeys).config;
      |d.accounts| == |c.accounts| && MayOnlyLose(names, c.accounts[i], d.accounts[i])
  {
    var keys := UsableKeys(names, failed, nodeKeys, {});
    BlankIsUnmanaged(names);
    var f := Freed(names, c);
    GcKeepsBindings(names, f, i);
    assert f.proxies == c.proxies;
    assert f.accounts[i] == Released(names, c.accounts[i]);
    AssignSkipsOr(names, Gc(names, f), keys, i);
  }

  /** The account is as it was, or has lost a managed proxy and nothing else but the mark that it was chosen by hand. */
  predicate MayOnlyLose(names: Names, a: Account, b: Account) {
    b == a || (IsManaged(names, a.proxyID) && b.(manualBinding := a.manualBinding) == a.(proxyID := ""))
  }

  lemma AssignSkipsOr(names: Names, g: Config, keys: seq<string>, i: nat)
    requires Sound(names) && i < |g.accounts| && keys != [] && !Assignable(g.accounts[i])
    ensures var d := Gc(names, AssignFrom(names, g, keys, 0, 0));
      |d.accounts| == |g.accounts| && MayOnlyLose(names, g.accounts[i], d.accounts[i])
  {
    AssignSkips(names, g, keys, 0, 0, i);
    GcKeepsBindings(names, AssignFrom(names, g, keys, 0, 0), i);
  }

  lemma {:induction false} AssignKeepsListener(names: Names, c: Config, keys: seq<string>, i: nat, turn: nat,
                                               key: string)
    requires Sound(names) && i <= |c.accounts| && keys != [] && Injective(c.portMap) && HasListener(names, c, key)
    ensures var d := AssignFrom(names, c, keys, i, turn);
      HasListener(names, d, key) && d.subscriptions == c.subscriptions
    decreases |c.accounts| - i
  {
    if i < |c.accounts| {
      if Assignable(c.accounts[i]) {
        var mine := keys[turn % |keys|];
        var node := FindNode(c.subscriptions, mine);
        if node.Some? {
          OnNodeKeepsListeners(names, c, i, mine, node.value.name, false, key);
          OnNodeKeepsInjective(names, c, i, mine, node.value.name, false);
        }
        AssignKeepsListener(names, IfLive(names, c, i, mine), keys, i + 1, turn + 1, key);
      } else {
        AssignKeepsListener(names, c, keys, i + 1, turn, key);
      }
    }
  }

  /** An account bound by hand to a live node stays on it through every assignment. */
  lemma ManualStaysBound(names: Names, c: Config, failed: string -> bool, nodeKeys: seq<string>, i: nat, key: string)
    requires Sound(names) && Injective(c.portMap) && Assign(names, c, failed, nodeKeys).Done?
    requires BoundTo(names, c, i, key) && Live(c, key) && c.accounts[i].manualBinding
    ensures var d := Assign(names, c, failed, nodeKeys).config;
      BoundTo(names, d, i, key) && d.accounts[i] == c.accounts[i]
  {
    AssignedIs(names, c, failed, nodeKeys, Gc(names, Freed(names, c)));
    ManualSurvivesFreeing(names, c, i, key);
    ManualSurvivesTurns(names, Gc(names, Freed(names, c)), UsableKeys(names, failed, nodeKeys, {}), i, key);
  }

  lemma ManualSurvivesFreeing(names: Names, c: Config, i: nat, key: string)
    requires Sound(names) && Injective(c.portMap) && BoundTo(names, c, i, key) && Live(c, key)
    requires c.accounts[i].manualBinding
    ensures var g := Gc(names, Freed(names, c));
      && BoundTo(names, g, i, key) && Live(g, key) && Injective(g.portMap) && g.accounts[i] == c.accounts[i]
  {
    var f := Freed(names, c);
    assert f.accounts[i] == c.accounts[i] && f.proxies == c.proxies && f.portMap == c.portMap;
    assert HasListener(names, f, key) && Live(f, key);
    BindingSurvivesGc(names, f, i, key);
    GcKeepsInjective(names, f);
  }

  lemma ManualSurvivesTurns(names: Names, g: Config, keys: seq<string>, i: nat, key: string)
    requires Sound(names) && Injective(g.portMap) && BoundTo(names, g, i, key) && Live(g, key) && keys != []
    requires g.accounts[i].manualBinding
    ensures var d := Gc(names, AssignFrom(names, g, keys, 0, 0));
      BoundTo(names, d, i, key) && d.accounts[i] == g.accounts[i]
  {
    AssignSkips(names, g, keys, 0, 0, i);
    AssignKeepsListener(names, g, keys, 0, 0, key);
    BindingSurvivesGc(names, AssignFrom(names, g, keys, 0, 0), i, key);
  }

  predicate Given(names: Names, keys: seq<string>, k: string) {
    exists i | 0 <= i < |keys| :: names.trim(keys[i]) == k
  }

  /** The nodes an assignment uses: those given, trimmed, but for blanks and failed ones, each once. */
  lemma {:induction false} UsableKeysAre(names: Names, failed: string -> bool, keys: seq<string>, seen: set<string>)
    ensures var u := UsableKeys(names, failed, keys, seen);
      && (forall k :: k in u <==> (k != "" && !failed(k) && k !in seen && Given(names, keys, k)))
      && forall i, j | 0 <= i < j < |u| :: u[i] != u[j]
    decreases |keys|
  {
    if keys != [] {
      var key, rest := names.trim(keys[0]), keys[1..];
      var skip := key == "" || key in seen;
      UsableKeysAre(names, failed, rest, if skip then seen else seen + {key});
      forall k ensures Given(names, keys, k) <==> k == key || Given(names, rest, k) {
        if i :| 0 <= i < |rest| && names.trim(rest[i]) == k {
          assert keys[i + 1] == rest[i];
        }
        if i :| 0 <= i < |keys| && names.trim(keys[i]) == k {
          assert i > 0 ==> rest[i - 1] == keys[i];
        }
      }
    }
  }

  // ---------------------------------------------------------------- accounts bound by hand

  /** An account marked as bound by hand is bound: its proxy is one of the nodes'. */
  ghost predicate ManualIsBound(names: Names, c: Config) {
    forall i | 0 <= i < |c.accounts| && c.accounts[i].manualBinding :: IsManaged(names, c.accounts[i].proxyID)
  }

  lemma GcKeepsManual(names: Names, c: Config)
    requires Sound(names) && ManualIsBound(names, c)
    ensures ManualIsBound(names, Gc(names, c))
  {
    forall i | 0 <= i < |c.accounts|
      ensures Gc(names, c).accounts[i].manualBinding ==> IsManaged(names, Gc(names, c).accounts[i].proxyID)
    {
      GcKeepsBindings(names, c, i);
    }
  }

  lemma OnNodeKeepsManual(names: Names, c: Config, i: nat, key: string, name: string, manual: bool)
    requires Sound(names) && i < |c.accounts| && ManualIsBound(names, c)
    ensures ManualIsBound(names, OnNode(names, c, i, key, name, manual))
  {
    var (port, ported) := Allocated(c, key);
    var (k, proxied) := Upserted(names, ported, key, name, port);
    assert IsManaged(names, names.proxyID(key));
    assert names.trim(proxied.proxies[k].id) == names.proxyID(key);
  }

  lemma {:induction false} AssignKeepsManual(names: Names, c: Config, keys: seq<string>, i: nat, turn: nat)
    requires Sound(names) && i <= |c.accounts| && keys != [] && ManualIsBound(names, c)
    ensures ManualIsBound(names, AssignFrom(names, c, keys, i, turn))
    decreases |c.accounts| - i
  {
    if i < |c.accounts| {
      if Assignable(c.accounts[i]) {
        var key := keys[turn % |keys|];
        var node := FindNode(c.subscriptions, key);
        if node.Some? {
          OnNodeKeepsManual(names, c, i, key, node.value.name, false);
        }
        AssignKeepsManual(names, IfLive(names, c, i, key), keys, i + 1, turn + 1);
      } else {
        AssignKeepsManual(names, c, keys, i + 1, turn);
      }
    }
  }

  lemma BindKeepsManual(names: Names, c: Config, identifier: string, nodeKey: string)
    requires Sound(names) && ManualIsBound(names, c) && Bind(names, c, identifier, nodeKey).Done?
    ensures ManualIsBound(names, Bind(names, c, identifier, nodeKey).config)
  {
    var i, key := AccountFrom(names, c.accounts, names.trim(identifier), 0), names.trim(nodeKey);
    if key == "" {
      GcKeepsManual(names, c.(accounts := c.accounts[i := Unbound(c.accounts[i])]));
    } else {
      var name := FindNode(c.subscriptions, key).value.name;
      OnNodeKeepsManual(names, c, i, key, name, true);
      GcKeepsManual(names, OnNode(names, c, i, key, name, true));
    }
  }

  lemma AssignmentKeepsManual(names: Names, c: Config, failed: string -> bool, nodeKeys: seq<string>)
    requires Sound(names) && ManualIsBound(names, c) && Assign(names, c, failed, nodeKeys).Done?
    ensures ManualIsBound(names, Assign(names, c, failed, nodeKeys).config)
  {
    var keys, g := UsableKeys(names, failed, nodeKeys, {}), Gc(names, Freed(names, c));
    GcKeepsManual(names, Freed(names, c));
    AssignKeepsManual(names, g, keys, 0, 0);
    GcKeepsManual(names, AssignFrom(names, g, keys, 0, 0));
  }

  lemma TransactionKeepsManual(names: Names, c: Config, t: Transaction)
    requires Sound(names) && ManualIsBound(names, c)
    ensures ManualIsBound(names, Apply(names, c, t))
  {
    if Result(names, c, t).Done? {
      match t
      case Binding(identifier, nodeKey) => BindKeepsManual(names, c, identifier, nodeKey);
      case Assigning(failed, nodeKeys) => AssignmentKeepsManual(names, c, failed, nodeKeys);
      case Deleting(id) =>
        var k := SubscriptionFrom(c.subscriptions, names.trim(id), 0);
        GcKeepsManual(names, Unsubscribed(names, c, names.trim(id), k));
      case Refreshing(id, nodes) =>
        var k := SubscriptionFrom(c.subscriptions, id, 0);
        GcKeepsManual(names, c.(subscriptions := c.subscriptions[k := c.subscriptions[k].(nodes := nodes)]));
      case Configuring(enabled, _, _) => GcKeepsManual(names, AllUnmanaged(names, c));
      case Collecting => GcKeepsManual(names, c);
    }
  }

  /** Over every sequence of transactions: whatever takes an account's node away also takes the mark, so that no account
      is left out of assignments without a node of its own. */
  lemma {:induction false} ManualStaysMeaningful(names: Names, c: Config, ts: seq<Transaction>)
    requires Sound(names) && ManualIsBound(names, c)
    ensures ManualIsBound(names, ApplyAll(names, c, ts))
    decreases |ts|
  {
    if ts != [] {
      TransactionKeepsManual(names, c, ts[0]);
      ManualStaysMeaningful(names, Apply(names, c, ts[0]), ts[1..]);
    }
  }

  // ---------------------------------------------------------------- ports

  /** A node gets a port that can be listened on, and it is the one recorded; a usable port it had stays. */
  lemma AllocatedIsUsable(c: Config, key: string)
    ensures var (port, d) := Allocated(c, key);
      && port >= 1 && key in d.portMap && d.portMap[key] == port
      && (key in c.portMap && c.portMap[key] >= 1 ==> port == c.portMap[key])
  {
    FreshPort(c);
  }

  /** A valid configuration is refused exactly when both ports are set, the API port is less than 16 past the listeners
      that could be there, and one of them is on it. */
  lemma CommitRefusesIff(names: Names, c: Config)
    requires names.valid(c)
    ensures Commit(names, c) == Failed(Invalid) <==>
      && 1 <= c.basePort <= c.apiPort && c.apiPort - c.basePort < |c.portMap| + 16
      && exists k | k in c.portMap :: c.portMap[k] == c.apiPort
  {
  }

  /** Settings: each port is the given one, else the one there was, else its default; and ports in use pin the first. */
  lemma ConfiguredPortsAre(names: Names, c: Config, enabled: bool, basePort: int, apiPort: int)
    requires Configure(names, c, enabled, basePort, apiPort).Done?
    ensures var d := Configure(names, c, enabled, basePort, apiPort).config;
      && d.basePort == (if basePort >= 1 then basePort else if c.basePort >= 1 then c.basePort else 10801)
      && d.apiPort == (if apiPort >= 1 then apiPort else if c.apiPort >= 1 then c.apiPort else 19090)
      && (c.portMap != map[] && c.basePort >= 1 ==> d.basePort == c.basePort)
  {
  }

  /** Turning the bridge off takes every account off its node. */
  lemma TurningOffUnbinds(names: Names, c: Config, basePort: int, apiPort: int, i: nat)
    requires Sound(names) && Configure(names, c, false, basePort, apiPort).Done? && i < |c.accounts|
    ensures var d := Configure(names, c, false, basePort, apiPort).config;
      && |d.accounts| == |c.accounts| && !IsManaged(names, d.accounts[i].proxyID)
      && (d.accounts[i] == c.accounts[i] ||
          (IsManaged(names, c.accounts[i].proxyID) && !d.accounts[i].manualBinding && d.accounts[i].cooldownUntil == 0))
  {
    BlankIsUnmanaged(names);
    GcKeepsBindings(names, AllUnmanaged(names, c), i);
  }
}
