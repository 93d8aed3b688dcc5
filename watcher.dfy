/** A watcher agent and its probes (Watcher.java). The kernel's handling
    of addOverlooker and removeOverlooker is outside this model: the
    watcher's requests to the kernel are recorded in order, and whether
    the kernel accepted a probe is a parameter. */
module Watchers {
  import opened Collections
  import opened Kernel

  /** What the watcher asks of the kernel, and the agent termination it
      hands over to. */
  datatype Request =
    | KernelAddOverlooker(probe: Overlooker)
    | KernelRemoveOverlooker(probe: Overlooker)
    | SuperTerminate

  /** One removal request per probe, in the probes' order. */
  function Removals(probes: seq<Overlooker>): seq<Request> {
    seq(|probes|, i requires 0 <= i < |probes| => KernelRemoveOverlooker(probes[i]))
  }

  /** The probe set after addProbe: the probe joins, at the end, when the
      kernel accepted it and it was not there yet. */
  function WithProbe(probes: seq<Overlooker>, p: Overlooker, accepted: bool): (r: seq<Overlooker>)
    ensures NoDup(probes) ==> NoDup(r)
    ensures p in r <==> p in probes || accepted
    ensures |probes| <= |r| && r[..|probes|] == probes
    ensures forall i :: 0 <= i < |r| ==> r[i] in probes || r[i] == p
  {
    if accepted && p !in probes then
      assert NoDup(probes) ==> NoDup(probes + [p]) by {
        if NoDup(probes) {
          NoDupAppend(probes, [p]);
        }
      }
      probes + [p]
    else probes
  }

  /** Removing a probe that addProbe has just added gives back the probes
      held before. */
  lemma RemoveUndoesAdd(probes: seq<Overlooker>, p: Overlooker, accepted: bool)
    requires p !in probes
    ensures RemoveFirst(WithProbe(probes, p, accepted), p) == probes
  {
    if accepted {
      RemoveFirstAt(probes + [p], p, |probes|);
      assert (probes + [p])[..|probes|] == probes;
    }
  }

  class Watcher {
    /** The probes held, in insertion order (a LinkedHashSet). */
    var probes: seq<Overlooker>
    /** The requests sent to the kernel so far, in order. */
    var requests: seq<Request>

    predicate Valid()
      reads this
    {
      NoDup(probes)
    }

    constructor()
      ensures Valid() && probes == [] && requests == []
    {
      probes, requests := [], [];
    }

    /** addProbe: the kernel is asked to add the probe, and the probe is
        kept when the kernel accepted it. */
    method AddProbe(probe: Overlooker, accepted: bool)
      requires Valid()
      modifies this
      ensures Valid()
      ensures requests == old(requests) + [KernelAddOverlooker(probe)]
      ensures probes == WithProbe(old(probes), probe, accepted)
    {
      requests := requests + [KernelAddOverlooker(probe)];
      if accepted && probe !in probes {
        probes := probes + [probe];
      }
    }

    /** removeProbe: the kernel is asked to remove the probe, whether or not
        it is held, and the probe is dropped. */
    method RemoveProbe(probe: Overlooker)
      requires Valid()
      modifies this
      ensures Valid() && probe !in probes
      ensures requests == old(requests) + [KernelRemoveOverlooker(probe)]
      ensures probes == RemoveFirst(old(probes), probe)
    {
      requests := requests + [KernelRemoveOverlooker(probe)];
      RemoveFirstNoDup(probes, probe);
      probes := RemoveFirst(probes, probe);
    }

    /** removeAllProbes: the kernel is asked to remove every held probe, in
        order, and the set is cleared. */
    method RemoveAllProbes()
      requires Valid()
      modifies this
      ensures Valid() && probes == []
      ensures requests == old(requests) + Removals(old(probes))
    {
      var i := 0;
      while i < |probes|
        invariant i <= |probes| && probes == old(probes)
        invariant requests == old(requests) + Removals(probes[..i])
      {
        assert Removals(probes[..i + 1]) == Removals(probes[..i]) + [KernelRemoveOverlooker(probes[i])];
        requests := requests + [KernelRemoveOverlooker(probes[i])];
        i := i + 1;
      }
      assert probes[..i] == probes;
      probes := [];
    }

    /** terminate: every probe is removed before the agent's own termination. */
    method Terminate()
      requires Valid()
      modifies this
      ensures Valid() && probes == []
      ensures requests == old(requests) + Removals(old(probes)) + [SuperTerminate]
    {
      RemoveAllProbes();
      requests := requests + [SuperTerminate];
    }
  }
}
