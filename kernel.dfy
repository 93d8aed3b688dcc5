/** A role of the organization (Role.java) and the overlookers that watch
    it (Overlooker.java). The two classes refer to each other, so they
    share one module. */
module Kernel {
  import opened Collections
  import opened AgentAddresses
  import opened LiveView

  /** The codes removeMember answers with. */
  datatype ReturnCode = Success | RoleNotHandled

  /** The overlookers of `operating` that name the community, group and
      role c, g, r, in the kernel's order. */
  function Targeting(operating: seq<Overlooker>, c: string, g: string, r: string): (sel: seq<Overlooker>)
    ensures forall i :: 0 <= i < |sel| ==> sel[i] in operating && sel[i].community == c && sel[i].group == g && sel[i].role == r
    ensures forall i :: 0 <= i < |operating| && operating[i].community == c && operating[i].group == g && operating[i].role == r ==> operating[i] in sel
    ensures NoDup(operating) ==> NoDup(sel)
    decreases |operating|
  {
    if operating == [] then []
    else
      var n := |operating| - 1;
      var last := operating[n];
      assert operating == operating[..n] + [last];
      var front := Targeting(operating[..n], c, g, r);
      assert NoDup(operating) ==> NoDup(operating[..n]) && last !in operating[..n];
      front + (if last.community == c && last.group == g && last.role == r then [last] else [])
  }

  /** A probe or activator on one community/group/role: it is attached to
      the Role object of that triple, and its `adding` and `removing` hooks
      are called as agents join and leave. The hooks are the default, empty
      ones; `trace` records their calls. */
  class Overlooker {
    const community: string
    const group: string
    const role: string
    /** The role watched; null before attachment and after deletion of the role. */
    var overlookedRole: Role?
    /** The calls of `adding` and `removing`, in order. */
    var trace: seq<Callback>
    /** Where `trace` stood when the current role was attached. */
    ghost var mark: nat

    constructor(communityName: string, groupName: string, roleName: string)
      ensures community == communityName && group == groupName && role == roleName
      ensures overlookedRole == null && trace == [] && mark == 0
    {
      community, group, role := communityName, groupName, roleName;
      overlookedRole, trace, mark := null, [], 0;
    }

    /** setOverlookedRole: attaching to a role calls `adding` once for each
        of its agents, in the role's order; detaching (null) calls no hook. */
    method SetOverlookedRole(theRole: Role?)
      requires theRole != null ==> theRole.Core()
      modifies this, theRole
      ensures overlookedRole == theRole
      ensures theRole == null ==> trace == old(trace) && mark == old(mark)
      ensures theRole != null ==> mark == |old(trace)| && trace == old(trace) + Addings(theRole.players)
      ensures theRole != null ==> theRole.Core() && theRole.CacheOnlyChanged() && theRole.SnapshotCurrent()
    {
      overlookedRole := theRole;
      if theRole != null {
        mark := |trace|;
        Initialize();
      }
    }

    /** initialize: one `adding` call per agent of the current list. */
    method Initialize()
      requires overlookedRole != null ==> overlookedRole.Core()
      modifies this`trace, overlookedRole
      ensures overlookedRole == null ==> trace == old(trace)
      ensures overlookedRole != null ==> trace == old(trace) + Addings(overlookedRole.players)
      ensures overlookedRole != null ==> overlookedRole.Core() && overlookedRole.CacheOnlyChanged() && overlookedRole.SnapshotCurrent()
    {
      var agents := GetCurrentAgentsList();
      var i := 0;
      while i < |agents|
        invariant i <= |agents|
        invariant trace == old(trace) + Addings(agents[..i])
        modifies this`trace
      {
        assert Addings(agents[..i + 1]) == Addings(agents[..i]) + [Added(agents[i])];
        Adding(agents[i]);
        i := i + 1;
      }
      assert agents[..i] == agents;
    }

    /** The `adding` hook. */
    method Adding(a: AgentId)
      modifies this`trace
      ensures trace == old(trace) + [Added(a)]
    {
      trace := trace + [Added(a)];
    }

    /** The `removing` hook. */
    method Removing(a: AgentId)
      modifies this`trace
      ensures trace == old(trace) + [Removed(a)]
    {
      trace := trace + [Removed(a)];
    }

    /** getCurrentAgentsList: the role's players in their order, or nothing
        when no role is attached. Reading it may refresh the role's cache. */
    method GetCurrentAgentsList() returns (agents: seq<AgentId>)
      modifies overlookedRole
      ensures overlookedRole == null ==> agents == []
      ensures overlookedRole != null ==> overlookedRole.CacheOnlyChanged() && !overlookedRole.modified
      ensures overlookedRole != null ==> agents == overlookedRole.snapshot
      ensures overlookedRole != null ==> overlookedRole.snapshot == if old(overlookedRole.modified) then overlookedRole.players else old(overlookedRole.snapshot)
      ensures overlookedRole != null && old(overlookedRole.Core()) ==> overlookedRole.Core() && overlookedRole.SnapshotCurrent() && agents == overlookedRole.players
    {
      if overlookedRole != null {
        agents := overlookedRole.GetAgentsList();
      } else {
        agents := [];
      }
    }

    /** size: the number of agents playing the watched role. */
    method Size() returns (n: nat)
      requires overlookedRole != null ==> overlookedRole.Core()
      modifies overlookedRole
      ensures n == if overlookedRole == null then 0 else |overlookedRole.players|
      ensures overlookedRole != null ==> overlookedRole.Core() && overlookedRole.CacheOnlyChanged()
    {
      var agents := GetCurrentAgentsList();
      n := |agents|;
    }

    /** getShuffledList as intended: a random permutation of the current
        agents, leaving the role's cached list in its proper order. */
    method GetShuffledList(draws: seq<nat>) returns (agents: seq<AgentId>)
      requires overlookedRole != null ==> overlookedRole.Core()
      modifies overlookedRole
      ensures overlookedRole == null ==> agents == []
      ensures overlookedRole != null ==> agents == Shuffle(overlookedRole.players, draws)
      ensures overlookedRole != null ==> multiset(agents) == multiset(overlookedRole.players)
      ensures overlookedRole != null ==> overlookedRole.Core() && overlookedRole.CacheOnlyChanged() && overlookedRole.SnapshotCurrent()
    {
      var current := GetCurrentAgentsList();
      agents := Shuffle(current, draws);
    }

    /** getShuffledList as written: Collections.shuffle is applied to the
        list getCurrentAgentsList returned, which is the role's own cached
        list, so the cache is left shuffled while still marked up to date. */
    method GetShuffledListInPlace(draws: seq<nat>) returns (agents: seq<AgentId>)
      requires overlookedRole != null ==> overlookedRole.Core()
      modifies overlookedRole
      ensures overlookedRole == null ==> agents == []
      ensures overlookedRole != null ==> agents == Shuffle(overlookedRole.players, draws)
      ensures overlookedRole != null ==> overlookedRole.snapshot == agents && !overlookedRole.modified
      ensures overlookedRole != null ==> overlookedRole.CacheOnlyChanged()
    {
      var current := GetCurrentAgentsList();
      if overlookedRole != null {
        overlookedRole.snapshot := Shuffle(overlookedRole.snapshot, draws);
        agents := overlookedRole.snapshot;
      } else {
        agents := current;
      }
    }

    /** update: exactly one hook call, `adding` or `removing`. */
    method Update(a: AgentId, added: bool)
      modifies this`trace
      ensures trace == old(trace) + [if added then Added(a) else Removed(a)]
    {
      if added {
        Adding(a);
      } else {
        Removing(a);
      }
    }
  }

  /** One role of one group: the agents playing it, their addresses (built
      lazily, and then also holding the addresses of distant agents), and
      the overlookers on it. */
  class Role {
    const communityName: string
    const groupName: string
    const roleName: string
    const kernelAddress: KernelAddress
    /** The local agents playing the role, in joining order. */
    var players: seq<AgentId>
    /** The copy of players that getAgentsList hands out. */
    var snapshot: seq<AgentId>
    /** True when players changed since the copy was taken. */
    var modified: bool
    /** The address list; None until first needed. */
    var addresses: Option<seq<AgentAddress>>
    /** The overlookers registered on this role (a LinkedHashSet). */
    var overlookers: seq<Overlooker>
    /** The addresses whose role object was set to this role. */
    ghost var bound: set<AgentAddress>
    /** How many times this role asked its group to remove it. */
    ghost var groupRemovals: nat

    /** The role's own bookkeeping is consistent. */
    ghost predicate Core()
      reads this
    {
      && NoDup(players)
      && NoDup(overlookers)
      && (!modified ==> snapshot == players)
      && (addresses.Some? ==> forall aa :: aa in addresses.value ==> aa in bound)
    }

    /** Every overlooker attached to this role has been told, since it was
        attached, exactly the changes that lead to the current players. */
    ghost predicate Observed()
      reads this, overlookers
    {
      forall o :: o in overlookers && o.overlookedRole == this ==>
        o.mark <= |o.trace| && Replay(o.trace[o.mark..]) == players
    }

    ghost predicate Valid()
      reads this, overlookers
    {
      Core() && Observed()
    }

    /** The cached copy is up to date. */
    predicate SnapshotCurrent()
      reads this
    {
      !modified && snapshot == players
    }

    /** Once built, the address list holds the local address of every player. */
    predicate PlayersListed()
      reads this
    {
      addresses.Some? ==> forall a :: a in players ==> AgentAddress(a, kernelAddress) in addresses.value
    }

    /** empty: no local player and no address left. */
    predicate Empty()
      reads this
    {
      players == [] && (addresses.None? || addresses.value == [])
    }

    /** Only the cached copy changed. */
    twostate predicate CacheOnlyChanged()
      reads this
    {
      && players == old(players)
      && addresses == old(addresses)
      && overlookers == old(overlookers)
      && bound == old(bound)
      && groupRemovals == old(groupRemovals)
    }

    /** The role asked its group to remove it exactly when it became empty,
        and then detached every overlooker. */
    twostate predicate DeletedExactlyWhenEmpty()
      reads this, overlookers
    {
      && overlookers == old(overlookers)
      && groupRemovals == old(groupRemovals) + (if Empty() then 1 else 0)
      && (Empty() ==> forall o :: o in overlookers ==> o.overlookedRole == null)
      && (!Empty() ==> forall o :: o in old(overlookers) ==> o.overlookedRole == old(o.overlookedRole))
    }

    /** The addresses buildAgentAddressesList would leave. */
    function BuiltAddresses(): seq<AgentAddress>
      reads this
    {
      if addresses.Some? then addresses.value else LocalAddresses(players, kernelAddress)
    }

    /** A new role has no player; it picks up the kernel's operating
        overlookers that name its community, group and role, and attaches them. */
    constructor(community: string, group: string, role: string, kernel: KernelAddress, operating: seq<Overlooker>)
      requires NoDup(operating)
      modifies set o | o in operating
      ensures communityName == community && groupName == group && roleName == role && kernelAddress == kernel
      ensures players == [] && addresses.None? && groupRemovals == 0
      ensures overlookers == Targeting(operating, community, group, role)
      ensures modified == (overlookers == [])
      ensures Valid()
      ensures forall o :: o in overlookers ==> o.overlookedRole == this && o.trace == old(o.trace)
      ensures forall o :: o in operating && o !in overlookers ==> o.overlookedRole == old(o.overlookedRole) && o.trace == old(o.trace)
    {
      var selected := SelectTargeting(operating, community, group, role);
      communityName, groupName, roleName, kernelAddress := community, group, role, kernel;
      players, snapshot, modified, addresses := [], [], true, None;
      bound, groupRemovals := {}, 0;
      overlookers := selected;
      new;
      assert Addings([]) == [];
      InitializeOverlookers();
    }

    /** initializeOverlookers: attaches every registered overlooker. */
    method InitializeOverlookers()
      requires Core()
      modifies this, overlookers
      ensures Core() && CacheOnlyChanged() && Observed()
      ensures forall o :: o in overlookers ==> o.overlookedRole == this && o.mark == |old(o.trace)| && o.trace == old(o.trace) + Addings(players)
      ensures overlookers != [] ==> SnapshotCurrent()
      ensures overlookers == [] ==> modified == old(modified) && snapshot == old(snapshot)
    {
      var i := 0;
      while i < |overlookers|
        invariant 0 <= i <= |overlookers|
        invariant Core() && CacheOnlyChanged()
        invariant forall j :: 0 <= j < i ==> overlookers[j].overlookedRole == this && overlookers[j].mark == |old(overlookers[j].trace)| && overlookers[j].trace == old(overlookers[j].trace) + Addings(players)
        invariant forall j :: i <= j < |overlookers| ==> overlookers[j].trace == old(overlookers[j].trace) && overlookers[j].mark == old(overlookers[j].mark)
        invariant i > 0 ==> SnapshotCurrent()
        invariant i == 0 ==> modified == old(modified) && snapshot == old(snapshot)
      {
        overlookers[i].SetOverlookedRole(this);
        i := i + 1;
      }
      forall o | o in overlookers && o.overlookedRole == this
        ensures o.mark <= |o.trace| && Replay(o.trace[o.mark..]) == players
      {
        assert o.trace[o.mark..] == Addings(players);
        SeededReplay(players);
      }
    }

    /** addOverlooker: registers o (once) and attaches it. */
    method AddOverlooker(o: Overlooker)
      requires Valid()
      modifies this, o
      ensures Valid()
      ensures overlookers == if o in old(overlookers) then old(overlookers) else old(overlookers) + [o]
      ensures o.overlookedRole == this && o.trace == old(o.trace) + Addings(players)
      ensures players == old(players) && addresses == old(addresses) && groupRemovals == old(groupRemovals)
    {
      if o !in overlookers {
        overlookers := overlookers + [o];
      }
      o.SetOverlookedRole(this);
      forall o' | o' in overlookers && o'.overlookedRole == this
        ensures o'.mark <= |o'.trace| && Replay(o'.trace[o'.mark..]) == players
      {
        if o' == o {
          assert o.trace[o.mark..] == Addings(players);
          SeededReplay(players);
        }
      }
    }

    /** removeOverlooker: detaches o; it stays registered. */
    method RemoveOverlooker(o: Overlooker)
      requires Valid()
      modifies o
      ensures Valid()
      ensures o.overlookedRole == null && o.trace == old(o.trace)
    {
      o.SetOverlookedRole(null);
    }

    /** Every overlooker's reconstruction follows one more hook call that
        mirrors the change just made to players. */
    lemma ObservedStep(c: Callback, before: seq<AgentId>)
      requires forall o :: o in overlookers && o.overlookedRole == this ==>
        o.mark + 1 <= |o.trace| && Replay(o.trace[o.mark..|o.trace| - 1]) == before && o.trace[|o.trace| - 1] == c
      requires c.Added? ==> players == before + [c.agent]
      requires c.Removed? ==> players == RemoveFirst(before, c.agent)
      ensures Observed()
    {
      forall o | o in overlookers && o.overlookedRole == this
        ensures o.mark <= |o.trace| && Replay(o.trace[o.mark..]) == players
      {
        var t := o.trace[o.mark..|o.trace| - 1];
        assert o.trace[o.mark..] == t + [c];
        ReplayStep(t, c);
      }
    }

    /** addMember: a new player is appended (with its address when the list
        exists) and every overlooker gets one `adding`; a current player is
        refused and nothing changes. */
    method AddMember(requester: AgentId) returns (added: bool)
      requires Valid()
      modifies this, overlookers
      ensures Valid() && overlookers == old(overlookers)
      ensures added <==> requester !in old(players)
      ensures !added ==> unchanged(this) && forall o :: o in overlookers ==> unchanged(o)
      ensures added ==> players == old(players) + [requester] && modified
      ensures added ==> addresses == if old(addresses).None? then None else Some(old(addresses).value + [AgentAddress(requester, kernelAddress)])
      ensures added ==> forall o :: o in overlookers ==> o.overlookedRole == old(o.overlookedRole) && o.trace == old(o.trace) + [Added(requester)]
      ensures groupRemovals == old(groupRemovals)
      ensures old(PlayersListed()) ==> PlayersListed()
    {
      if requester in players {
        return false;
      }
      ghost var before := players;
      NoDupAppend(players, [requester]);
      players := players + [requester];
      if addresses.Some? {
        var aa := AgentAddress(requester, kernelAddress);
        bound := bound + {aa};
        addresses := Some(addresses.value + [aa]);
      }
      modified := true;
      UpdateOverlookers(requester, true);
      ObservedStep(Added(requester), before);
      added := true;
    }

    /** addMembers: a bucket of new agents is appended at once; the address
        list, when it exists, gets their addresses in front. A role created
        for the bucket attaches its overlookers afresh; otherwise each
        overlooker gets one `adding` per agent, in the bucket's order. */
    method AddMembers(bucket: seq<AgentId>, roleJustCreated: bool)
      requires Valid()
      requires NoDup(bucket) && forall a :: a in bucket ==> a !in players
      modifies this, overlookers
      ensures Valid() && overlookers == old(overlookers)
      ensures players == old(players) + bucket
      ensures addresses == if old(addresses).None? then None else Some(LocalAddresses(bucket, kernelAddress) + old(addresses).value)
      ensures roleJustCreated ==> forall o :: o in overlookers ==> o.overlookedRole == this && o.trace == old(o.trace) + Addings(players)
      ensures !roleJustCreated ==> modified && forall o :: o in overlookers ==> o.overlookedRole == old(o.overlookedRole) && o.trace == old(o.trace) + Addings(bucket)
      ensures groupRemovals == old(groupRemovals)
      ensures old(PlayersListed()) ==> PlayersListed()
    {
      NoDupAppend(players, bucket);
      LocalAddressesNoDup(bucket, kernelAddress);
      players := players + bucket;
      if addresses.Some? {
        var made := MakeAddresses(bucket, kernelAddress);
        bound := bound + set aa | aa in made;
        addresses := Some(made + addresses.value);
      }
      modified := true;
      if roleJustCreated {
        InitializeOverlookers();
      } else {
        ghost var before := old(players);
        UpdateOverlookersAdded(bucket);
        forall o | o in overlookers && o.overlookedRole == this
          ensures o.mark <= |o.trace| && Replay(o.trace[o.mark..]) == players
        {
          assert o.trace[o.mark..] == old(o.trace)[o.mark..] + Addings(bucket);
          ReplayAddings(old(o.trace)[o.mark..], bucket);
        }
      }
    }

    /** addDistantMember: the address list is built if needed and the
        distant address appended unless already present. */
    method AddDistantMember(content: AgentAddress)
      requires Valid()
      modifies this
      ensures Valid()
      ensures addresses == Some(ImportAll(old(BuiltAddresses()), [content]))
      ensures content in addresses.value && content in bound
      ensures players == old(players) && modified == old(modified) && snapshot == old(snapshot)
      ensures overlookers == old(overlookers) && groupRemovals == old(groupRemovals)
      ensures old(addresses.None? || NoDup(addresses.value)) ==> NoDup(addresses.value)
      ensures old(PlayersListed()) ==> PlayersListed()
    {
      ImportDistantOrg([content]);
    }

    /** buildAgentAddressesList: when the list does not exist yet it is made
        from the local addresses of the players, in their order. */
    method BuildAgentAddressesList()
      requires Core()
      modifies this`addresses, this`bound
      ensures Core()
      ensures addresses == Some(old(BuiltAddresses()))
      ensures old(addresses).Some? ==> bound == old(bound)
      ensures old(addresses.None? || NoDup(addresses.value)) ==> NoDup(addresses.value)
      ensures PlayersListed() || !old(PlayersListed())
      ensures old(addresses).None? ==> PlayersListed()
    {
      if addresses.None? {
        var built := MakeAddresses(players, kernelAddress);
        LocalAddressesNoDup(players, kernelAddress);
        bound := bound + set aa | aa in built;
        addresses := Some(built);
      }
    }

    /** importDistantOrg: the list is built if needed and each imported
        address appended, in order, unless already present. */
    method ImportDistantOrg(list: seq<AgentAddress>)
      requires Valid()
      modifies this
      ensures Valid()
      ensures addresses == Some(ImportAll(old(BuiltAddresses()), list))
      ensures forall aa :: aa in list ==> aa in addresses.value && aa in bound
      ensures players == old(players) && modified == old(modified) && snapshot == old(snapshot)
      ensures overlookers == old(overlookers) && groupRemovals == old(groupRemovals)
      ensures old(addresses.None? || NoDup(addresses.value)) ==> NoDup(addresses.value)
      ensures old(PlayersListed()) ==> PlayersListed()
    {
      BuildAgentAddressesList();
      AppendAbsent(list);
    }

    /** The loop of importDistantOrg over an existing list: each address
        not yet present is bound to this role and appended. */
    method AppendAbsent(list: seq<AgentAddress>)
      requires addresses.Some? && forall aa :: aa in addresses.value ==> aa in bound
      modifies this`addresses, this`bound
      ensures addresses == Some(ImportAll(old(addresses.value), list))
      ensures forall aa :: aa in addresses.value ==> aa in bound
    {
      var i := 0;
      while i < |list|
        invariant i <= |list|
        invariant addresses.Some? && ImportAll(addresses.value, list[i..]) == ImportAll(old(addresses.value), list)
        invariant forall aa :: aa in addresses.value ==> aa in bound
      {
        var aa := list[i];
        assert list[i..][0] == aa && list[i..][1..] == list[i + 1..];
        if aa !in addresses.value {
          bound := bound + {aa};
          addresses := Some(addresses.value + [aa]);
        }
        i := i + 1;
      }
      assert list[i..] == [];
    }

    /** removeMember: a non-player is answered RoleNotHandled and nothing
        changes; a player is removed together with its address, each
        overlooker gets one `removing`, and a role left empty removes itself
        from its group. */
    method RemoveMember(requester: AgentId) returns (code: ReturnCode)
      requires Valid()
      modifies this, overlookers
      ensures Valid() && overlookers == old(overlookers)
      ensures code == (if requester in old(players) then Success else RoleNotHandled)
      ensures code == RoleNotHandled ==> unchanged(this) && forall o :: o in overlookers ==> unchanged(o)
      ensures code == Success ==> players == RemoveFirst(old(players), requester) && requester !in players && modified
      ensures code == Success ==> addresses == if old(addresses).None? then None else Some(RemoveAddressOf(old(addresses).value, requester))
      ensures code == Success ==> forall o :: o in overlookers ==> o.trace == old(o.trace) + [Removed(requester)]
      ensures code == Success ==> DeletedExactlyWhenEmpty()
      ensures old(PlayersListed()) ==> PlayersListed()
    {
      if requester !in players {
        return RoleNotHandled;
      }
      ghost var before := players;
      DropPlayer(requester);
      UpdateOverlookers(requester, false);
      ObservedStep(Removed(requester), before);
      DeleteIfEmpty();
      code := Success;
    }

    /** The bookkeeping of removeMember for a player: the agent leaves the
        players and its first address leaves the list. */
    method DropPlayer(requester: AgentId)
      requires Core() && requester in players
      modifies this`players, this`addresses, this`modified
      ensures Core()
      ensures players == RemoveFirst(old(players), requester) && requester !in players && modified
      ensures addresses == if old(addresses).None? then None else Some(RemoveAddressOf(old(addresses).value, requester))
      ensures old(PlayersListed()) ==> PlayersListed()
    {
      RemoveFirstNoDup(players, requester);
      players := RemoveFirst(players, requester);
      if addresses.Some? {
        var rest, _ := RemoveAgentAddressOf(requester, addresses.value);
        addresses := Some(rest);
      }
      modified := true;
    }

    /** The closing step of the removals: a role left empty removes itself
        from its group. */
    method DeleteIfEmpty()
      requires Valid()
      modifies this`groupRemovals, overlookers
      ensures Valid()
      ensures groupRemovals == old(groupRemovals) + (if Empty() then 1 else 0)
      ensures Empty() ==> forall o :: o in overlookers ==> o.overlookedRole == null
      ensures !Empty() ==> forall o :: o in overlookers ==> o.overlookedRole == old(o.overlookedRole)
      ensures forall o :: o in overlookers ==> o.trace == old(o.trace)
    {
      if Empty() {
        DeleteMySelfFromOrg();
      }
    }

    /** removeAgentsFromDistantKernel: every address of kernel k is dropped
        from the list (when it exists); a role left empty removes itself. */
    method RemoveAgentsFromDistantKernel(k: KernelAddress)
      requires Valid()
      modifies this, overlookers
      ensures Valid() && overlookers == old(overlookers)
      ensures addresses == if old(addresses).None? then None else Some(WithoutKernel(old(addresses).value, k))
      ensures players == old(players) && modified == old(modified) && snapshot == old(snapshot)
      ensures forall o :: o in overlookers ==> o.trace == old(o.trace)
      ensures DeletedExactlyWhenEmpty()
      ensures old(PlayersListed()) && k != kernelAddress ==> PlayersListed()
    {
      if addresses.Some? {
        var kept := KeepOtherKernels(addresses.value, k);
        addresses := Some(kept);
      }
      DeleteIfEmpty();
    }

    /** removeDistantMember: the first copy of the address is dropped from
        the list (when it exists); a role left empty removes itself. */
    method RemoveDistantMember(content: AgentAddress)
      requires Valid()
      modifies this, overlookers
      ensures Valid() && overlookers == old(overlookers)
      ensures addresses == if old(addresses).None? then None else Some(RemoveFirst(old(addresses).value, content))
      ensures old(addresses.Some? && NoDup(addresses.value)) ==> content !in addresses.value && NoDup(addresses.value)
      ensures players == old(players) && modified == old(modified) && snapshot == old(snapshot)
      ensures forall o :: o in overlookers ==> o.trace == old(o.trace)
      ensures DeletedExactlyWhenEmpty()
      ensures old(PlayersListed()) && content.kernel != kernelAddress ==> PlayersListed()
    {
      DropAddress(content);
      DeleteIfEmpty();
    }

    /** The list update of removeDistantMember. */
    method DropAddress(content: AgentAddress)
      requires Core()
      modifies this`addresses
      ensures Core()
      ensures addresses == if old(addresses).None? then None else Some(RemoveFirst(old(addresses).value, content))
      ensures old(addresses.Some? && NoDup(addresses.value)) ==> content !in addresses.value && NoDup(addresses.value)
      ensures old(PlayersListed()) && content.kernel != kernelAddress ==> PlayersListed()
    {
      if addresses.Some? {
        if NoDup(addresses.value) {
          RemoveFirstNoDup(addresses.value, content);
        }
        addresses := Some(RemoveFirst(addresses.value, content));
      }
    }

    /** deleteMySelfFromOrg: every overlooker is detached, then the group
        is asked to drop this role. */
    method DeleteMySelfFromOrg()
      requires NoDup(overlookers)
      modifies this`groupRemovals, overlookers
      ensures groupRemovals == old(groupRemovals) + 1
      ensures forall o :: o in overlookers ==> o.overlookedRole == null && o.trace == old(o.trace)
    {
      var i := 0;
      while i < |overlookers|
        invariant 0 <= i <= |overlookers|
        invariant forall j :: 0 <= j < i ==> overlookers[j].overlookedRole == null && overlookers[j].trace == old(overlookers[j].trace)
        invariant forall j :: i <= j < |overlookers| ==> overlookers[j].trace == old(overlookers[j].trace)
        invariant groupRemovals == old(groupRemovals)
      {
        overlookers[i].SetOverlookedRole(null);
        i := i + 1;
      }
      groupRemovals := groupRemovals + 1;
    }

    /** getAgentsList: the cached copy, taken afresh from players when they
        changed since the last copy. */
    method GetAgentsList() returns (agents: seq<AgentId>)
      modifies this`modified, this`snapshot
      ensures !modified && agents == snapshot
      ensures snapshot == if old(modified) then players else old(snapshot)
      ensures old(Core()) ==> Core() && agents == players
    {
      if modified {
        modified := false;
        snapshot := players;
      }
      agents := snapshot;
    }

    /** updateOverlookers(agent, added): one hook call on every overlooker. */
    method UpdateOverlookers(a: AgentId, added: bool)
      requires NoDup(overlookers)
      modifies overlookers
      ensures forall o :: o in overlookers ==> o.trace == old(o.trace) + [if added then Added(a) else Removed(a)]
      ensures forall o :: o in overlookers ==> o.overlookedRole == old(o.overlookedRole) && o.mark == old(o.mark)
    {
      var i := 0;
      while i < |overlookers|
        invariant 0 <= i <= |overlookers|
        invariant forall j :: 0 <= j < i ==> overlookers[j].trace == old(overlookers[j].trace) + [if added then Added(a) else Removed(a)]
        invariant forall j :: i <= j < |overlookers| ==> overlookers[j].trace == old(overlookers[j].trace)
        invariant forall j :: 0 <= j < |overlookers| ==> overlookers[j].overlookedRole == old(overlookers[j].overlookedRole) && overlookers[j].mark == old(overlookers[j].mark)
      {
        overlookers[i].Update(a, added);
        i := i + 1;
      }
    }

    /** updateOverlookers(bucket, true): one `adding` per agent of the
        bucket, in its order, on every overlooker. */
    method UpdateOverlookersAdded(bucket: seq<AgentId>)
      requires NoDup(overlookers)
      modifies overlookers
      ensures forall o :: o in overlookers ==> o.trace == old(o.trace) + Addings(bucket)
      ensures forall o :: o in overlookers ==> o.overlookedRole == old(o.overlookedRole) && o.mark == old(o.mark)
    {
      var i := 0;
      while i < |bucket|
        invariant i <= |bucket|
        invariant forall o :: o in overlookers ==> o.trace == old(o.trace) + Addings(bucket[..i])
        invariant forall o :: o in overlookers ==> o.overlookedRole == old(o.overlookedRole) && o.mark == old(o.mark)
      {
        assert Addings(bucket[..i + 1]) == Addings(bucket[..i]) + [Added(bucket[i])];
        UpdateOverlookers(bucket[i], true);
        i := i + 1;
      }
      assert bucket[..i] == bucket;
    }
  }

  /** The selection loop of the Role constructor over the kernel's
      operating overlookers. */
  method SelectTargeting(operating: seq<Overlooker>, c: string, g: string, r: string) returns (selected: seq<Overlooker>)
    ensures selected == Targeting(operating, c, g, r)
  {
    selected := [];
    var i := 0;
    while i < |operating|
      invariant i <= |operating|
      invariant selected == Targeting(operating[..i], c, g, r)
    {
      var o := operating[i];
      assert operating[..i + 1] == operating[..i] + [o];
      if o.community == c && o.group == g && o.role == r {
        selected := selected + [o];
      }
      i := i + 1;
    }
    assert operating[..i] == operating;
  }

  /** The local addresses of the agents, one per agent, in their order. */
  method MakeAddresses(agents: seq<AgentId>, k: KernelAddress) returns (r: seq<AgentAddress>)
    ensures r == LocalAddresses(agents, k)
  {
    r := [];
    var i := 0;
    while i < |agents|
      invariant i <= |agents|
      invariant r == LocalAddresses(agents[..i], k)
    {
      r := r + [AgentAddress(agents[i], k)];
      i := i + 1;
    }
    assert agents[..i] == agents;
  }

  /** The addresses of the list that do not belong to kernel k, in their
      order (the iterator walk of removeAgentsFromDistantKernel). */
  method KeepOtherKernels(all: seq<AgentAddress>, k: KernelAddress) returns (kept: seq<AgentAddress>)
    ensures kept == WithoutKernel(all, k)
  {
    kept := [];
    var i := 0;
    while i < |all|
      invariant i <= |all|
      invariant kept == WithoutKernel(all[..i], k)
    {
      assert all[..i + 1] == all[..i] + [all[i]];
      WithoutKernelAppend(all[..i], [all[i]], k);
      if all[i].kernel != k {
        kept := kept + [all[i]];
      }
      i := i + 1;
    }
    assert all[..i] == all;
  }

  /** removeAgentAddressOf: removes from the list the first address held by
      the agent and answers it, or answers nothing when the agent has none. */
  method RemoveAgentAddressOf(requester: AgentId, list: seq<AgentAddress>) returns (rest: seq<AgentAddress>, removed: Option<AgentAddress>)
    ensures rest == RemoveAddressOf(list, requester)
    ensures removed.None? <==> forall aa :: aa in list ==> aa.agent != requester
    ensures removed.Some? ==> removed.value.agent == requester && removed.value in list && |rest| == |list| - 1
    ensures removed.Some? ==> IndexOfAgent(list, requester).Some? && removed.value == list[IndexOfAgent(list, requester).value]
  {
    var i := 0;
    while i < |list|
      invariant i <= |list|
      invariant forall j :: 0 <= j < i ==> list[j].agent != requester
    {
      if list[i].agent == requester {
        assert IndexOfAgent(list, requester) == Some(i);
        return list[..i] + list[i + 1..], Some(list[i]);
      }
      i := i + 1;
    }
    return list, None;
  }
}

/** getShuffledList on a role whose players joined as 1 then 2, with a
    random source whose one draw is 0. */
module ShuffleDemo {
  import opened Collections
  import opened AgentAddresses
  import opened Kernel

  /** With one draw of 0, shuffling two elements exchanges them. */
  lemma ShuffleOfTwo()
    ensures Shuffle([1, 2], [0]) == [2, 1]
  {
    assert Swap([1, 2], 1, 0) == [2, 1];
    assert ShuffleDown([1, 2], 2, [0]) == ShuffleDown([2, 1], 1, []);
  }

  /** A role whose players joined as 1 then 2, with a probe attached. */
  method TwoPlayerRole() returns (role: Role, probe: Overlooker)
    ensures fresh(role) && fresh(probe)
    ensures role.Core() && role.players == [1, 2] && probe.overlookedRole == role
  {
    probe := new Overlooker("c", "g", "r");
    role := new Role("c", "g", "r", 0, []);
    var added := role.AddMember(1);
    assert role.players == [1];
    added := role.AddMember(2);
    assert role.players == [1, 2];
    role.AddOverlooker(probe);
  }

  /** As written: the role's own list is left in the shuffled order, and
      getCurrentAgentsList then answers 2, 1 although the players are 1, 2. */
  method ShuffledCacheDemo() returns (listed: seq<AgentId>, players: seq<AgentId>)
    ensures players == [1, 2] && listed == [2, 1]
  {
    var role, probe := TwoPlayerRole();
    ShuffleOfTwo();
    var shuffled := probe.GetShuffledListInPlace([0]);
    assert role.snapshot == [2, 1] && role.players == [1, 2];
    listed := probe.GetCurrentAgentsList();
    players := role.players;
  }

  /** Corrected: the same calls leave getCurrentAgentsList answering the
      players in their joining order, while the shuffled copy is 2, 1. */
  method ShuffledCopyDemo() returns (shuffled: seq<AgentId>, listed: seq<AgentId>)
    ensures shuffled == [2, 1] && listed == [1, 2]
  {
    var role, probe := TwoPlayerRole();
    ShuffleOfTwo();
    shuffled := probe.GetShuffledList([0]);
    listed := probe.GetCurrentAgentsList();
  }
}
