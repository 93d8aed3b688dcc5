/** What an Overlooker is told about the role it watches: the calls of its
    `adding` and `removing` hooks, and the player list those calls let it
    reconstruct. */
module LiveView {
  import opened Collections
  import opened AgentAddresses

  /** One call of an overlooker hook. */
  datatype Callback = Added(agent: AgentId) | Removed(agent: AgentId)

  /** One `adding` call per agent, in the agents' order (what initialize
      and the bulk update deliver). */
  function Addings(agents: seq<AgentId>): seq<Callback> {
    seq(|agents|, i requires 0 <= i < |agents| => Added(agents[i]))
  }

  /** The player list an observer reconstructs by replaying the hook calls
      it received: `adding` appends, `removing` drops the agent, as the
      role's own list does. */
  function Replay(t: seq<Callback>): seq<AgentId>
    decreases |t|
  {
    if t == [] then []
    else
      var v := Replay(t[..|t| - 1]);
      match t[|t| - 1]
      case Added(a) => v + [a]
      case Removed(a) => RemoveFirst(v, a)
  }

  /** Replaying one more hook call. */
  lemma ReplayStep(t: seq<Callback>, c: Callback)
    ensures c.Added? ==> Replay(t + [c]) == Replay(t) + [c.agent]
    ensures c.Removed? ==> Replay(t + [c]) == RemoveFirst(Replay(t), c.agent)
  {
    assert (t + [c])[..|t + [c]| - 1] == t;
  }

  /** Seeding an overlooker with a list of agents makes its reconstruction
      grow by exactly that list. */
  lemma {:induction false} ReplayAddings(t: seq<Callback>, agents: seq<AgentId>)
    ensures Replay(t + Addings(agents)) == Replay(t) + agents
    decreases |agents|
  {
    if agents != [] {
      var n := |agents| - 1;
      assert Addings(agents) == Addings(agents[..n]) + [Added(agents[n])];
      assert t + Addings(agents) == (t + Addings(agents[..n])) + [Added(agents[n])];
      ReplayAddings(t, agents[..n]);
      ReplayStep(t + Addings(agents[..n]), Added(agents[n]));
      assert agents == agents[..n] + [agents[n]];
    } else {
      assert t + Addings(agents) == t;
    }
  }

  /** An overlooker attached to a role and seeded with its players
      reconstructs exactly that player list. */
  lemma SeededReplay(agents: seq<AgentId>)
    ensures Replay(Addings(agents)) == agents
  {
    ReplayAddings([], agents);
    assert [] + Addings(agents) == Addings(agents);
  }
}
