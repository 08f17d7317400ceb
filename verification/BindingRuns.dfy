/** Runs of the transactions of Binding from an empty port map that end where the documentation says none does. */
module BindingRuns {

  import opened Basics
  import opened Binding

  /** Identifiers that need no trimming, a hash that is the key itself, and a validator that rejects nothing else. */
  const PLAIN := Names(s => s, k => MANAGED_PREFIX + k, (a: Account, id: string) => a.identifier == id,
    (_: Config) => true)

  lemma PlainIsSound()
    ensures Sound(PLAIN)
  {
    forall j, k | PLAIN.proxyID(j) == PLAIN.proxyID(k) ensures j == k {
      assert (MANAGED_PREFIX + j)[|MANAGED_PREFIX|..] == j && (MANAGED_PREFIX + k)[|MANAGED_PREFIX|..] == k;
    }
    forall k ensures IsManaged(PLAIN, PLAIN.proxyID(k)) && PLAIN.trim(PLAIN.proxyID(k)) == PLAIN.proxyID(k) {
      assert (MANAGED_PREFIX + k)[..|MANAGED_PREFIX|] == MANAGED_PREFIX;
    }
  }

  function Fresh(identifier: string): Account {
    Account(identifier, "", identifier, "", false, false, 0, false)
  }

  lemma KeySplits(sub: string, name: string)
    requires |sub| == 1 && sub[0] != ':' && name != ""
    ensures SplitNodeKey(sub + "::" + name) == (sub, name)
  {
    assert (sub + ":")[0..][0] == sub[0];
    NodeKeyRoundTripIff(sub, name);
  }

  /** A configuration with nothing bound is collected as it is. */
  lemma UnboundIsCollected(c: Config)
    requires c.proxies == [] && c.portMap == map[] && forall a | a in c.accounts :: a.proxyID == ""
    ensures Collected(PLAIN, c)
  {
  }

  // ---------------------------------------------------------------- two nodes, one listener

  const A := "s::A"
  const B := "s::B"

  const PAIR := Config([Fresh("a"), Fresh("b")], [], map[], [Subscription("s", [Node("A", "ss")])], DEFAULT_BASE_PORT,
    DEFAULT_API_PORT)

  // Account a is put on node A, the refreshed list holds only node B, and account b is put on it.
  const PAIR_RUN := [Binding("a", A), Refreshing("s", [Node("B", "ss")]), Binding("b", B)]

  const ON_A := Proxy(MANAGED_PREFIX + A, "A", "socks5", "127.0.0.1", DEFAULT_BASE_PORT)
  const ON_B := Proxy(MANAGED_PREFIX + B, "B", "socks5", "127.0.0.1", DEFAULT_BASE_PORT)

  function Put(a: Account, p: Proxy): Account {
    a.(proxyID := p.id, manualBinding := true)
  }

  const BOUND := PAIR.(accounts := [Put(Fresh("a"), ON_A), Fresh("b")], proxies := [ON_A],
    portMap := map[A := DEFAULT_BASE_PORT])
  const STALE := BOUND.(portMap := map[], subscriptions := [Subscription("s", [Node("B", "ss")])])
  const SHARED := STALE.(
    accounts := [Put(Fresh("a"), ON_A), Put(Fresh("b"), ON_B)], proxies := [ON_A, ON_B],
      portMap := map[B := DEFAULT_BASE_PORT])

  lemma FirstIsFree(c: Config)
    requires c.portMap == map[] && c.basePort == DEFAULT_BASE_PORT && c.apiPort == DEFAULT_API_PORT
    ensures LeastFree(Taken(c), Base(c)) == DEFAULT_BASE_PORT
  {
    assert Taken(c) == {DEFAULT_API_PORT};
    LeastFreeIs(Taken(c), Base(c), DEFAULT_BASE_PORT);
  }

  lemma BindIs(names: Names, c: Config, identifier: string, key: string, i: nat, node: Node, d: Config)
    requires names.trim(identifier) == identifier && names.trim(key) == key != ""
    requires i < |c.accounts| && AccountFrom(names, c.accounts, identifier, 0) == i
    requires FindNode(c.subscriptions, key) == Some(node) && OnNode(names, c, i, key, node.name, true) == d
    requires Gc(names, d) == d && names.valid(d) && !ApiPortRejected(d)
    ensures Apply(names, c, Binding(identifier, key)) == d
  {
  }

  lemma PutOnA()
    ensures OnNode(PLAIN, PAIR, 0, A, "A", true) == BOUND
  {
    FirstIsFree(PAIR);
    var d := OnNode(PLAIN, PAIR, 0, A, "A", true);
    assert d.accounts == BOUND.accounts && d.proxies == BOUND.proxies;
  }

  lemma BindA()
    ensures Apply(PLAIN, PAIR, Binding("a", A)) == BOUND
  {
    KeySplits("s", "A");
    assert A == "s" + "::" + "A";
    PutOnA();
    BoundIsCollected();
    PlainIsSound();
    CollectedIsFixed(PLAIN, BOUND);
    BindIs(PLAIN, PAIR, "a", A, 0, Node("A", "ss"), BOUND);
  }

  lemma BoundIsCollected()
    ensures Collected(PLAIN, BOUND)
  {
    KeySplits("s", "A");
    assert A == "s" + "::" + "A" && Live(BOUND, A);
    assert BOUND.accounts[0] in BOUND.accounts && References(PLAIN, BOUND, ON_A.id);
    assert ON_A in BOUND.proxies && HasProxy(PLAIN, BOUND, ON_A.id);
  }

  lemma NodeAIsGone()
    ensures !Live(STALE, A)
  {
    var nodes := STALE.subscriptions[0].nodes;
    KeySplits("s", "A");
    assert A == "s" + "::" + "A" && "A"[0] != "B"[0];
    assert nodes[1..] == [] && FindInNodes(nodes, "A") == None;
    assert STALE.subscriptions[1..] == [];
  }

  lemma RefreshToB()
    ensures Apply(PLAIN, BOUND, Refreshing("s", [Node("B", "ss")])) == STALE
  {
    PlainIsSound();
    NodeAIsGone();
    assert WithNodes(BOUND, 0, [Node("B", "ss")]) == BOUND.(subscriptions := STALE.subscriptions);
    StaleIsWhatRemains(BOUND.(subscriptions := STALE.subscriptions));
  }

  lemma StaleIsWhatRemains(c: Config)
    requires c == BOUND.(subscriptions := STALE.subscriptions) && Sound(PLAIN) && !Live(STALE, A)
    ensures Gc(PLAIN, c) == STALE
  {
    var g := Gc(PLAIN, c);
    assert c.accounts[0] in c.accounts && References(PLAIN, c, ON_A.id);
    assert ON_A in c.proxies && HasProxy(PLAIN, c, ON_A.id);
    AllKept(PLAIN, c.proxies, Referenced(PLAIN, c.accounts));
    forall j | 0 <= j < 2 ensures g.accounts[j] == c.accounts[j] {
      GcKeepsBindings(PLAIN, c, j);
    }
    forall k ensures k !in g.portMap {
      GcKeepsPorts(PLAIN, c, k);
    }
    assert g.portMap == map[] && g.accounts == c.accounts;
  }

  lemma PutOnB()
    ensures OnNode(PLAIN, STALE, 1, B, "B", true) == SHARED
  {
    FirstIsFree(STALE);
    assert ON_A.id[10] == 'A' && ON_B.id[10] == 'B' && ON_A.id != PLAIN.proxyID(B);
    assert ProxyFrom(PLAIN, STALE.proxies, PLAIN.proxyID(B), 0) == 1;
    var d := OnNode(PLAIN, STALE, 1, B, "B", true);
    assert d.proxies == SHARED.proxies && d.accounts == SHARED.accounts;
  }

  lemma SecondIsB()
    ensures AccountFrom(PLAIN, STALE.accounts, "b", 0) == 1
  {
    assert "a"[0] != "b"[0] && STALE.accounts[0].identifier == "a" && STALE.accounts[1].identifier == "b";
  }

  lemma BindB()
    ensures Apply(PLAIN, STALE, Binding("b", B)) == SHARED
  {
    KeySplits("s", "B");
    assert B == "s" + "::" + "B";
    SecondIsB();
    PutOnB();
    SharedIsCollected();
    PlainIsSound();
    CollectedIsFixed(PLAIN, SHARED);
    BindIs(PLAIN, STALE, "b", B, 1, Node("B", "ss"), SHARED);
  }

  lemma SharedIsCollected()
    ensures Collected(PLAIN, SHARED)
  {
    KeySplits("s", "B");
    assert B == "s" + "::" + "B" && Live(SHARED, B);
    assert SHARED.accounts[0] in SHARED.accounts && References(PLAIN, SHARED, ON_A.id);
    assert SHARED.accounts[1] in SHARED.accounts && References(PLAIN, SHARED, ON_B.id);
    assert SHARED.proxies[0] in SHARED.proxies && HasProxy(PLAIN, SHARED, ON_A.id);
    assert SHARED.proxies[1] in SHARED.proxies && HasProxy(PLAIN, SHARED, ON_B.id);
  }

  /** From an empty port map: two accounts bound to different nodes end on the same local port. */
  lemma RefreshSharesListener()
    ensures PAIR.portMap == map[] && PAIR.proxies == [] && ApplyAll(PLAIN, PAIR, PAIR_RUN) == SHARED
    ensures SHARED.accounts[0].proxyID == PLAIN.proxyID(A) && SHARED.accounts[1].proxyID == PLAIN.proxyID(B) && A != B
    ensures SHARED.proxies == [ON_A, ON_B] && ON_A.id == PLAIN.proxyID(A) && ON_B.id == PLAIN.proxyID(B) &&
      ON_A.port == ON_B.port
  {
    BindA();
    RefreshToB();
    BindB();
    RunOfThree(PLAIN, PAIR, BOUND, STALE, Binding("a", A), Refreshing("s", [Node("B", "ss")]), Binding("b", B));
    assert A[3] != B[3];
  }

  lemma RunOfThree(names: Names, c: Config, d: Config, e: Config, t: Transaction, u: Transaction, v: Transaction)
    requires Apply(names, c, t) == d && Apply(names, d, u) == e
    ensures ApplyAll(names, c, [t, u, v]) == Apply(names, e, v)
  {
    var f := Apply(names, e, v);
    assert [t, u, v][1..] == [u, v] && [u, v][1..] == [v] && [v][1..] == [];
    assert ApplyAll(names, f, []) == f;
    assert ApplyAll(names, e, [v]) == f;
    assert ApplyAll(names, d, [u, v]) == f;
  }

  /** The proxy of the vanished node has no mapped port any more. */
  lemma SharedIsNotBacked()
    ensures !Backed(PLAIN, SHARED)
  {
    assert A[3] != B[3] && SHARED.proxies[0] in SHARED.proxies;
    forall key | PLAIN.proxyID(key) == ON_A.id ensures key == A {
      assert (MANAGED_PREFIX + key)[|MANAGED_PREFIX|..] == key && ON_A.id[|MANAGED_PREFIX|..] == A;
    }
    assert ON_A.id[..|MANAGED_PREFIX|] == MANAGED_PREFIX && !IsBacked(PLAIN, SHARED, ON_A);
  }
}
