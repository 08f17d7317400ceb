/** A run of the transactions of Binding from an empty port map that ends with the API port on a listener. */
module ApiPortRun {

  import opened Basics
  import opened Binding
  import opened BindingRuns

  // Enough nodes for the last port to lie beyond the range the validator looks at once all others are gone.
  const SPAN: nat := 17

  function NodeName(i: nat): (name: string)
    ensures |name| == i + 1
  {
    seq(i + 1, _ => 'x')
  }

  function NodesTo(n: nat): (nodes: seq<Node>)
    ensures |nodes| == n && forall i | 0 <= i < n :: nodes[i].name == NodeName(i)
  {
    seq(n, i requires 0 <= i < n => Node(NodeName(i), "ss"))
  }

  const ONLY_B := [Subscription("B", [Node("x", "ss")])]
  const BOTH := [Subscription("A", NodesTo(SPAN))] + ONLY_B

  const LAST: string := "B" + "::" + "x"

  function KeyAt(i: nat): string {
    if i < SPAN then "A" + "::" + NodeName(i) else LAST
  }

  function Keys(): (keys: seq<string>)
    ensures |keys| == SPAN + 1 && forall i | 0 <= i <= SPAN :: keys[i] == KeyAt(i)
  {
    seq(SPAN + 1, i requires 0 <= i <= SPAN => KeyAt(i))
  }

  const HEALTHY: string -> bool := _ => false

  const ACCOUNTS := seq(SPAN + 1, i requires 0 <= i <= SPAN => Fresh(NodeName(i)))

  const IDLE := Config(ACCOUNTS, [], map[], BOTH, DEFAULT_BASE_PORT, 1)

  predicate DistinctAccounts(c: Config) {
    forall i, j | 0 <= i < j < |c.accounts| :: c.accounts[i].identifier != c.accounts[j].identifier
  }

  lemma IdleIsDistinct()
    ensures DistinctAccounts(IDLE)
  {
    forall i: nat, j: nat | i < j <= SPAN ensures IDLE.accounts[i].identifier != IDLE.accounts[j].identifier {
      assert |NodeName(i)| != |NodeName(j)|;
    }
  }

  lemma KeysDiffer(i: nat, j: nat)
    requires i < j <= SPAN
    ensures KeyAt(i) != KeyAt(j)
  {
    assert KeyAt(i)[0] == 'A' && (j < SPAN ==> |KeyAt(j)| != |KeyAt(i)|) && (j == SPAN ==> KeyAt(j)[0] == 'B');
  }

  lemma {:induction false} NodeIsFound(nodes: seq<Node>, name: string, i: nat)
    requires i < |nodes| && nodes[i].name == name
    ensures FindInNodes(nodes, name).Some?
  {
    if i > 0 && nodes[0].name != name {
      NodeIsFound(nodes[1..], name, i - 1);
    }
  }

  lemma LastSplits()
    ensures SplitNodeKey(LAST) == ("B", "x") && FindNode(ONLY_B, LAST).Some? && FindNode(BOTH, LAST).Some?
  {
    KeySplits("B", "x");
    NodeIsFound(ONLY_B[0].nodes, "x", 0);
    assert BOTH[1..] == ONLY_B && BOTH[0].id == "A" && "A"[0] != "B"[0];
  }

  lemma KeyIsLive(i: nat)
    requires i <= SPAN
    ensures FindNode(BOTH, KeyAt(i)).Some? && KeyAt(i) != ""
  {
    if i < SPAN {
      KeySplits("A", NodeName(i));
      NodeIsFound(BOTH[0].nodes, NodeName(i), i);
    } else {
      LastSplits();
    }
  }

  /** Distinct keys of healthy nodes are all usable. */
  lemma {:induction false} AllUsable(i: nat, seen: set<string>)
    requires i <= SPAN + 1 && forall j | i <= j <= SPAN :: KeyAt(j) !in seen
    ensures UsableKeys(PLAIN, HEALTHY, Keys()[i..], seen) == Keys()[i..]
    decreases SPAN + 1 - i
  {
    var keys := Keys()[i..];
    if i <= SPAN {
      KeyIsLive(i);
      forall j | i < j <= SPAN ensures KeyAt(j) !in seen + {KeyAt(i)} {
        KeysDiffer(i, j);
      }
      AllUsable(i + 1, seen + {KeyAt(i)});
      assert keys[0] == KeyAt(i) && keys[1..] == Keys()[i + 1..] && keys == [keys[0]] + keys[1..];
    }
  }

  /** The first i nodes with the first i ports from the base on. */
  function PortsOf(i: nat): map<string, int> {
    if i == 0 then map[] else PortsOf(i - 1)[KeyAt(i - 1) := DEFAULT_BASE_PORT + i - 1]
  }

  lemma {:induction false} PortAt(i: nat, j: nat)
    requires j < i <= SPAN + 1
    ensures KeyAt(j) in PortsOf(i) && PortsOf(i)[KeyAt(j)] == DEFAULT_BASE_PORT + j
  {
    if j < i - 1 {
      PortAt(i - 1, j);
      KeysDiffer(j, i - 1);
    }
  }

  lemma {:induction false} PortIsAt(i: nat, key: string) returns (j: nat)
    requires key in PortsOf(i) && i <= SPAN + 1
    ensures j < i && key == KeyAt(j) && PortsOf(i)[key] == DEFAULT_BASE_PORT + j
  {
    if key == KeyAt(i - 1) {
      j := i - 1;
    } else {
      j := PortIsAt(i - 1, key);
    }
  }

  ghost predicate InTurn(c: Config, i: nat) {
    && |c.accounts| == SPAN + 1 && (forall j | 0 <= j <= SPAN :: !c.accounts[j].disabled)
    && (forall j | i <= j <= SPAN :: Assignable(c.accounts[j]))
    && c.subscriptions == BOTH && c.basePort == DEFAULT_BASE_PORT && c.apiPort == 1 && c.portMap == PortsOf(i)
  }

  lemma NextPort(c: Config, i: nat)
    requires c.portMap == PortsOf(i) && c.basePort == DEFAULT_BASE_PORT && c.apiPort == 1 && i <= SPAN
    ensures LeastFree(Taken(c), Base(c)) == DEFAULT_BASE_PORT + i && KeyAt(i) !in c.portMap
  {
    if KeyAt(i) in c.portMap {
      var j := PortIsAt(i, KeyAt(i));
      KeysDiffer(j, i);
      assert false;
    }
    forall r | DEFAULT_BASE_PORT <= r < DEFAULT_BASE_PORT + i ensures r in Taken(c) {
      PortAt(i, r - DEFAULT_BASE_PORT);
    }
    forall k | k in c.portMap ensures c.portMap[k] != DEFAULT_BASE_PORT + i {
      var j := PortIsAt(i, k);
    }
    LeastFreeIs(Taken(c), Base(c), DEFAULT_BASE_PORT + i);
  }

  lemma OnNodeFields(names: Names, c: Config, i: nat, key: string, name: string)
    requires i < |c.accounts| && key !in c.portMap
    ensures var d := OnNode(names, c, i, key, name, false);
      && d.portMap == c.portMap[key := LeastFree(Taken(c), Base(c))]
      && d.subscriptions == c.subscriptions && d.basePort == c.basePort && d.apiPort == c.apiPort
      && |d.accounts| == |c.accounts| && (forall j | 0 <= j < |c.accounts| && j != i :: d.accounts[j] == c.accounts[j])
      && d.accounts[i].disabled == c.accounts[i].disabled
  {
  }

  lemma OneInTurn(names: Names, c: Config, i: nat, key: string, name: string)
    requires InTurn(c, i) && i <= SPAN && key == KeyAt(i)
    ensures InTurn(OnNode(names, c, i, key, name, false), i + 1)
  {
    NextPort(c, i);
    OnNodeFields(names, c, i, key, name);
    TurnPasses(c, OnNode(names, c, i, key, name, false), i, key);
  }

  lemma TurnPasses(c: Config, d: Config, i: nat, key: string)
    requires InTurn(c, i) && i <= SPAN && key == KeyAt(i) && d.portMap == c.portMap[key := DEFAULT_BASE_PORT + i]
    requires d.subscriptions == c.subscriptions && d.basePort == c.basePort && d.apiPort == c.apiPort
    requires |d.accounts| == |c.accounts| &&
      (forall j | 0 <= j < |c.accounts| && j != i :: d.accounts[j] == c.accounts[j])
    requires !d.accounts[i].disabled
    ensures InTurn(d, i + 1)
  {
    assert PortsOf(i + 1) == PortsOf(i)[key := DEFAULT_BASE_PORT + i];
  }

  lemma NextAssigned(names: Names, c: Config, keys: seq<string>, i: nat, key: string, node: Node)
    requires i < |c.accounts| && Assignable(c.accounts[i]) && i < |keys| && keys[i] == key
    requires FindNode(c.subscriptions, key) == Some(node)
    ensures AssignFrom(names, c, keys, i, i) ==
            AssignFrom(names, OnNode(names, c, i, key, node.name, false), keys, i + 1, i + 1)
  {
    assert i % |keys| == i;
  }

  lemma {:induction false} AssignsInTurn(c: Config, i: nat)
    requires InTurn(c, i) && i <= SPAN + 1
    ensures InTurn(AssignFrom(PLAIN, c, Keys(), i, i), SPAN + 1)
    decreases SPAN + 1 - i
  {
    if i <= SPAN {
      KeyIsLive(i);
      var key, node := KeyAt(i), FindNode(BOTH, KeyAt(i)).value;
      NextAssigned(PLAIN, c, Keys(), i, key, node);
      OneInTurn(PLAIN, c, i, key, node.name);
      AssignsInTurn(OnNode(PLAIN, c, i, key, node.name, false), i + 1);
    }
  }

  /** What matters of the last account, on the last node and its port. */
  ghost predicate LastIsBound(c: Config) {
    && BoundTo(PLAIN, c, SPAN, LAST) && c.portMap[LAST] == DEFAULT_BASE_PORT + SPAN && !c.accounts[SPAN].disabled
    && c.basePort == DEFAULT_BASE_PORT && c.apiPort == 1
  }

  lemma {:induction false} AllTakeTurns(accounts: seq<Account>, i: nat, j: nat)
    requires i <= j <= |accounts| && forall k | 0 <= k < |accounts| :: Assignable(accounts[k])
    ensures Turns(accounts, i, j) == j - i
    decreases j - i
  {
    if i < j {
      AllTakeTurns(accounts, i + 1, j);
    }
  }

  lemma AssignmentIs(c: Config, keys: seq<string>, d: Config)
    requires UsableKeys(PLAIN, HEALTHY, keys, {}) == keys && keys != []
    requires forall i | 0 <= i < |keys| :: FindNode(c.subscriptions, keys[i]).Some?
    requires Freed(PLAIN, c) == c && Gc(PLAIN, c) == c && d == Gc(PLAIN, AssignFrom(PLAIN, c, keys, 0, 0))
    requires !ApiPortRejected(d)
    ensures Apply(PLAIN, c, Assigning(HEALTHY, keys)) == d
  {
  }

  lemma LastInTurn(c: Config, keys: seq<string>)
    requires Sound(PLAIN) && InTurn(c, 0) && keys == Keys() && forall k | k in keys :: Live(c, k)
    ensures BoundTo(PLAIN, AssignFrom(PLAIN, c, keys, 0, 0), SPAN, LAST)
  {
    AllTakeTurns(c.accounts, 0, SPAN);
    assert keys[(0 + SPAN) % |keys|] == KeyAt(SPAN) == LAST;
    AssignGoesRound(PLAIN, c, keys, 0, 0, SPAN, LAST);
  }

  lemma KeysAreLive()
    ensures forall k | k in Keys() :: Live(IDLE, k)
  {
    forall k | k in Keys() ensures Live(IDLE, k) {
      var i :| 0 <= i < |Keys()| && Keys()[i] == k;
      KeyIsLive(i);
    }
  }

  lemma LastStays(d: Config)
    requires Sound(PLAIN) && InTurn(d, SPAN + 1) && BoundTo(PLAIN, d, SPAN, LAST)
    ensures LastIsBound(Gc(PLAIN, d))
  {
    LastSplits();
    BindingSurvivesGc(PLAIN, d, SPAN, LAST);
    GcKeepsPorts(PLAIN, d, LAST);
    assert KeyAt(SPAN) == LAST;
    PortAt(SPAN + 1, SPAN);
  }

  lemma IdleIsFree()
    requires Sound(PLAIN)
    ensures InTurn(IDLE, 0) && Freed(PLAIN, IDLE) == IDLE && Gc(PLAIN, IDLE) == IDLE
  {
    UnboundIsCollected(IDLE);
    CollectedIsFixed(PLAIN, IDLE);
    assert Freed(PLAIN, IDLE).accounts == IDLE.accounts;
  }

  lemma AllAreUsable()
    ensures UsableKeys(PLAIN, HEALTHY, Keys(), {}) == Keys()
    ensures forall i | 0 <= i < |Keys()| :: FindNode(BOTH, Keys()[i]).Some?
  {
    AllUsable(0, {});
    assert Keys()[0..] == Keys();
    forall i | 0 <= i < |Keys()| ensures FindNode(BOTH, Keys()[i]).Some? {
      KeyIsLive(i);
    }
  }

  /** What the assignment makes of any configuration like IDLE. */
  lemma AssignedFrom(c: Config, keys: seq<string>)
    requires Sound(PLAIN) && InTurn(c, 0) && Freed(PLAIN, c) == c && Gc(PLAIN, c) == c && keys == Keys()
    requires UsableKeys(PLAIN, HEALTHY, keys, {}) == keys && forall k | k in keys :: Live(c, k)
    ensures var d := Apply(PLAIN, c, Assigning(HEALTHY, keys)); LastIsBound(d) && d.subscriptions == BOTH
  {
    LastInTurn(c, keys);
    AssignsInTurn(c, 0);
    var d := AssignFrom(PLAIN, c, keys, 0, 0);
    LastStays(d);
    forall i | 0 <= i < |keys| ensures FindNode(c.subscriptions, keys[i]).Some? {
      assert keys[i] in keys;
    }
    AssignmentIs(c, keys, Gc(PLAIN, d));
  }

  lemma Assigned()
    ensures var c := Apply(PLAIN, IDLE, Assigning(HEALTHY, Keys()));
      LastIsBound(c) && c.subscriptions == BOTH
  {
    PlainIsSound();
    AllAreUsable();
    KeysAreLive();
    IdleIsFree();
    AssignedFrom(IDLE, Keys());
  }

  lemma OnlyLastIsLive(key: string)
    requires FindNode(ONLY_B, key).Some?
    ensures key == LAST
  {
    var (sub, name) := SplitNodeKey(key);
    var at := Separator(key, 0);
    assert ONLY_B[1..] == [] && FindInSubscriptions([], sub, name) == None;
    assert ONLY_B[0].nodes[1..] == [] && FindInNodes([], name) == None;
    assert sub == "B" && FindInNodes(ONLY_B[0].nodes, name).Some?;
    assert key == key[..at] + "::" + key[at + 2..];
  }

  lemma LastOutlivesA(c: Config)
    requires LastIsBound(c) && c.subscriptions == BOTH
    ensures var u := Unsubscribed(PLAIN, c, "A", 0);
      BoundTo(PLAIN, u, SPAN, LAST) && u.subscriptions == ONLY_B && u.accounts[SPAN] == c.accounts[SPAN]
  {
    PlainIsSound();
    assert ("A" + "::")[0] != LAST[0];
    assert PLAIN.proxyID(LAST) !in DeadProxies(PLAIN, c, "A");
    assert BOTH[..0] + BOTH[1..] == ONLY_B;
  }

  lemma DeletionIs(c: Config, d: Config)
    requires |c.subscriptions| > 0 && c.subscriptions[0].id == "A"
    requires d == Gc(PLAIN, Unsubscribed(PLAIN, c, "A", 0)) && !ApiPortRejected(d)
    ensures Apply(PLAIN, c, Deleting("A")) == d
  {
    assert SubscriptionFrom(c.subscriptions, "A", 0) == 0;
  }

  lemma LastAfterDeletion(c: Config, u: Config)
    requires Sound(PLAIN) && LastIsBound(c) && c.subscriptions == BOTH && u == Unsubscribed(PLAIN, c, "A", 0)
    ensures var d := Gc(PLAIN, u); LastIsBound(d) && d.subscriptions == ONLY_B && Collected(PLAIN, d)
  {
    LastSplits();
    LastOutlivesA(c);
    BindingSurvivesGc(PLAIN, u, SPAN, LAST);
    GcKeepsPorts(PLAIN, u, LAST);
    GcCollects(PLAIN, u);
  }

  lemma Deleted(c: Config)
    requires LastIsBound(c) && c.subscriptions == BOTH
    ensures var d := Apply(PLAIN, c, Deleting("A"));
      LastIsBound(d) && d.subscriptions == ONLY_B && Collected(PLAIN, d) && |d.portMap| == 1
  {
    var u := Unsubscribed(PLAIN, c, "A", 0);
    PlainIsSound();
    LastAfterDeletion(c, u);
    OnlyLastStays(Gc(PLAIN, u));
    DeletionIs(c, Gc(PLAIN, u));
  }

  lemma OnlyLastStays(d: Config)
    requires Collected(PLAIN, d) && LAST in d.portMap && d.subscriptions == ONLY_B
    ensures |d.portMap| == 1
  {
    forall k | k in d.portMap ensures k == LAST {
      OnlyLastIsLive(k);
    }
    assert d.portMap.Keys == {LAST};
  }

  const MOVED: int := DEFAULT_BASE_PORT + SPAN

  lemma PortsSet(c: Config, apiPort: int)
    requires c.basePort > 0 && apiPort > 0 && !ApiPortRejected(c.(apiPort := apiPort))
    ensures Apply(PLAIN, c, Configuring(true, 0, apiPort)) == c.(apiPort := apiPort)
  {
    assert WithPorts(c, 0, apiPort) == c.(apiPort := apiPort);
  }

  /** The range the validator looks at ends just below the last port. */
  lemma ApiPortMoves(c: Config)
    requires LastIsBound(c) && Collected(PLAIN, c) && |c.portMap| == 1
    ensures Apply(PLAIN, c, Configuring(true, 0, MOVED)) == c.(apiPort := MOVED)
    ensures Slips(c, Configuring(true, 0, MOVED)) && Collected(PLAIN, c.(apiPort := MOVED))
  {
    PortsSet(c, MOVED);
    assert LAST in c.portMap && Uses(c.portMap, MOVED);
    PortsDoNotMatter(PLAIN, c, 0, MOVED);
  }

  function ApiPortActions(): seq<Transaction> {
    [Assigning(HEALTHY, Keys()), Deleting("A"), Configuring(true, 0, MOVED)]
  }

  /** From an empty port map, three transactions lead to a collected configuration in which an enabled account is
      bound to a live node whose listener is on the API port. */
  lemma ApiPortClashIsReachable()
    ensures Sound(PLAIN) && IDLE.portMap == map[] && Apart(IDLE) && DistinctAccounts(IDLE)
    ensures var d := ApplyAll(PLAIN, IDLE, ApiPortActions());
      && Collected(PLAIN, d) && BoundTo(PLAIN, d, SPAN, LAST) && !d.accounts[SPAN].disabled && Live(d, LAST)
      && d.portMap[LAST] == d.apiPort
  {
    PlainIsSound();
    LastSplits();
    IdleIsDistinct();
    var c := Apply(PLAIN, IDLE, Assigning(HEALTHY, Keys()));
    var d := Apply(PLAIN, c, Deleting("A"));
    Assigned();
    Deleted(c);
    ApiPortMoves(d);
    RunOfThree(PLAIN, IDLE, c, d, Assigning(HEALTHY, Keys()), Deleting("A"), Configuring(true, 0, MOVED));
  }
}
