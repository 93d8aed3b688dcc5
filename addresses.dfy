/** Agent addresses and the list operations a Role performs on its
    address list (agentAddresses in Role.java). */
module AgentAddresses {
  import opened Collections

  /** The identity of an agent object. Identities are taken to be unique
      across kernels: an address imported from another kernel never names
      a local agent. */
  type AgentId = nat

  /** The identity of one running kernel (KernelAddress). */
  type KernelAddress = nat

  /** An AgentAddress: equal when agent and kernel are equal, whichever
      role it was obtained from. */
  datatype AgentAddress = AgentAddress(agent: AgentId, kernel: KernelAddress)

  /** The addresses `new AgentAddress(a, role, kernel)` made for local
      agents, one per agent and in the agents' order. */
  function LocalAddresses(agents: seq<AgentId>, k: KernelAddress): seq<AgentAddress> {
    seq(|agents|, i requires 0 <= i < |agents| => AgentAddress(agents[i], k))
  }

  /** Distinct agents get distinct local addresses. */
  lemma LocalAddressesNoDup(agents: seq<AgentId>, k: KernelAddress)
    requires NoDup(agents)
    ensures NoDup(LocalAddresses(agents, k))
    ensures forall a :: a in agents ==> AgentAddress(a, k) in LocalAddresses(agents, k)
  {
    var r := LocalAddresses(agents, k);
    forall i, j | 0 <= i < j < |r| ensures r[i] != r[j] {
      assert r[i].agent == agents[i] && r[j].agent == agents[j];
    }
    forall a | a in agents ensures AgentAddress(a, k) in r {
      var i :| 0 <= i < |agents| && agents[i] == a;
      assert r[i] == AgentAddress(a, k);
    }
  }

  /** The addresses of s that do not belong to kernel k, in their order
      (what removeAgentsFromDistantKernel leaves). */
  function WithoutKernel(s: seq<AgentAddress>, k: KernelAddress): (r: seq<AgentAddress>)
    ensures forall aa :: aa in r <==> aa in s && aa.kernel != k
    ensures |r| <= |s|
  {
    if s == [] then []
    else
      assert s == [s[0]] + s[1..];
      (if s[0].kernel == k then [] else [s[0]]) + WithoutKernel(s[1..], k)
  }

  /** Filtering distributes over concatenation: together with the
      one-element case this says that the order of what is kept is the
      original order. */
  lemma {:induction false} WithoutKernelAppend(s: seq<AgentAddress>, t: seq<AgentAddress>, k: KernelAddress)
    ensures WithoutKernel(s + t, k) == WithoutKernel(s, k) + WithoutKernel(t, k)
    ensures |t| == 1 ==> WithoutKernel(t, k) == (if t[0].kernel == k then [] else t)
  {
    if s != [] {
      assert (s + t)[1..] == s[1..] + t;
      WithoutKernelAppend(s[1..], t, k);
    } else {
      assert s + t == t;
    }
    if |t| == 1 {
      assert t[1..] == [];
    }
  }

  /** The position of the first address held by agent a, if any (the
      element removeAgentAddressOf removes). */
  function IndexOfAgent(s: seq<AgentAddress>, a: AgentId): (r: Option<nat>)
    ensures r.Some? ==> r.value < |s| && s[r.value].agent == a
    ensures r.Some? ==> forall j :: 0 <= j < r.value ==> s[j].agent != a
    ensures r.None? ==> forall j :: 0 <= j < |s| ==> s[j].agent != a
  {
    if s == [] then None
    else if s[0].agent == a then Some(0)
    else
      match IndexOfAgent(s[1..], a)
      case None => None
      case Some(i) => Some(i + 1)
  }

  /** The list with the first address of agent a removed. */
  function RemoveAddressOf(s: seq<AgentAddress>, a: AgentId): (r: seq<AgentAddress>)
    ensures (forall aa :: aa in s ==> aa.agent != a) ==> r == s
    ensures (exists aa :: aa in s && aa.agent == a) ==> |r| == |s| - 1
    ensures forall aa :: aa in r ==> aa in s
    ensures forall aa :: aa in s && aa.agent != a ==> aa in r
    ensures IndexOfAgent(s, a).Some? ==> r == s[..IndexOfAgent(s, a).value] + s[IndexOfAgent(s, a).value + 1..]
  {
    match IndexOfAgent(s, a)
    case None => s
    case Some(i) =>
      assert s == s[..i] + [s[i]] + s[i + 1..];
      s[..i] + s[i + 1..]
  }

  /** Appends, in order, each address of `incoming` not yet present
      (addDistantMember, importDistantOrg). */
  function ImportAll(s: seq<AgentAddress>, incoming: seq<AgentAddress>): (r: seq<AgentAddress>)
    ensures NoDup(s) ==> NoDup(r)
    ensures forall aa :: aa in r <==> aa in s || aa in incoming
    ensures |s| <= |r| && r[..|s|] == s
    decreases |incoming|
  {
    if incoming == [] then s
    else
      var x := incoming[0];
      var s' := if x in s then s else s + [x];
      assert NoDup(s) ==> NoDup(s');
      assert incoming == [x] + incoming[1..];
      var r := ImportAll(s', incoming[1..]);
      assert r[..|s|] == r[..|s'|][..|s|];
      r
  }
}
