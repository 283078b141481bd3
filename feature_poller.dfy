/** The feature-poll registry: features that the camera may change on its own register
    a pair of functions (one that polls the camera, one that refreshes the controls).
    The registry is an ordered list without repetitions. Function pointers are modelled
    by identities; the poll thread itself is not part of this model. */
module FeaturePolling {
  import opened Sdk
  import opened Lists

  /** Identity of a function the registry can call. */
  type FunctionId = nat

  /** PxLFeaturePollFunctions: the poll function and the update function of a feature. */
  datatype PollFunctions = PollFunctions(pollFeature: FunctionId, updateControls: FunctionId)

  /** operator==: both function pointers equal, which is equality of the two entries. */
  function SamePollFunctions(a: PollFunctions, b: PollFunctions): (r: bool)
    ensures r <==> a == b
  {
    b.pollFeature == a.pollFeature && b.updateControls == a.updateControls
  }

  /** Milliseconds between two polls. */
  const POLL_INTERVAL: nat := 200

  /** The list after `pollAdd(f)`: unchanged if `f` is present, else `f` at the end. */
  function Added(list: seq<PollFunctions>, f: PollFunctions): seq<PollFunctions> {
    if f in list then list else list + [f]
  }

  /** The list after `pollRemove(f)`: the first entry equal to `f` erased, if any. */
  function Removed(list: seq<PollFunctions>, f: PollFunctions): seq<PollFunctions> {
    match FirstIndexOf(list, f)
    case None => list
    case Some(k) => list[..k] + list[k + 1..]
  }

  class FeaturePoller {
    var pollList: seq<PollFunctions>
    var pollsPerUpdate: nat
    var pollThreadRunning: bool

    /** `updateInterval` is the time between two control updates, in milliseconds;
        the number of polls per update is its whole number of poll intervals. */
    constructor (updateInterval: nat)
      ensures pollList == []
      ensures pollsPerUpdate * POLL_INTERVAL <= updateInterval < (pollsPerUpdate + 1) * POLL_INTERVAL
      ensures pollThreadRunning
    {
      pollList := [];
      pollsPerUpdate := updateInterval / POLL_INTERVAL;
      pollThreadRunning := true;
    }

    /** pollAdd: nothing happens when an equal entry is registered already. */
    method PollAdd(functions: PollFunctions)
      modifies this
      ensures pollList == Added(old(pollList), functions)
      ensures pollsPerUpdate == old(pollsPerUpdate) && pollThreadRunning == old(pollThreadRunning)
    {
      var it := FindFirst(pollList, functions);
      if it.Some? {
        return;
      }
      pollList := pollList + [functions];
    }

    /** pollRemove: nothing happens when no equal entry is registered. */
    method PollRemove(functions: PollFunctions)
      modifies this
      ensures pollList == Removed(old(pollList), functions)
      ensures pollsPerUpdate == old(pollsPerUpdate) && pollThreadRunning == old(pollThreadRunning)
    {
      var it := FindFirst(pollList, functions);
      if it.None? {
        return;
      }
      pollList := pollList[..it.value] + pollList[it.value + 1..];
    }

    /** updateFeatureControls: calls every registered update function once, in list
        order, and asks not to be scheduled again. */
    method UpdateFeatureControls() returns (called: seq<FunctionId>, again: bool)
      ensures |called| == |pollList|
      ensures forall i :: 0 <= i < |pollList| ==> called[i] == pollList[i].updateControls
      ensures !again
    {
      called := [];
      var i := 0;
      while i < |pollList|
        invariant 0 <= i <= |pollList|
        invariant |called| == i
        invariant forall j :: 0 <= j < i ==> called[j] == pollList[j].updateControls
      {
        called := called + [pollList[i].updateControls];
        i := i + 1;
      }
      again := false;
    }
  }

  /** Adding keeps the entries in order: the old list is a prefix of the new one, which
      contains the added entry and grows by at most one. */
  lemma AddedKeepsOrder(list: seq<PollFunctions>, f: PollFunctions)
    ensures var r := Added(list, f);
            r[..|list|] == list && f in r && |r| <= |list| + 1
            && (f !in list ==> r[|list|] == f)
  {
  }

  /** Adding twice is adding once. */
  lemma AddedIdempotent(list: seq<PollFunctions>, f: PollFunctions)
    ensures Added(Added(list, f), f) == Added(list, f)
  {
  }

  /** Adding preserves the absence of duplicates. */
  lemma AddedNoDuplicates(list: seq<PollFunctions>, f: PollFunctions)
    requires NoDuplicates(list)
    ensures NoDuplicates(Added(list, f))
  {
  }

  /** Removing preserves the absence of duplicates; in a list without duplicates the
      removed entry is then absent, and every other entry stays. */
  lemma RemovedDeletes(list: seq<PollFunctions>, f: PollFunctions)
    requires NoDuplicates(list)
    ensures NoDuplicates(Removed(list, f))
    ensures f !in Removed(list, f)
    ensures forall g :: g != f ==> (g in Removed(list, f) <==> g in list)
  {
    var idx := FirstIndexOf(list, f);
    if idx.Some? {
      var k := idx.value;
      var r := Removed(list, f);
      assert r == list[..k] + list[k + 1..];
      assert forall i :: 0 <= i < k ==> r[i] == list[i];
      assert forall i :: k <= i < |r| ==> r[i] == list[i + 1];
      forall g | g != f && g in list
        ensures g in r
      {
        var j :| 0 <= j < |list| && list[j] == g;
        if j < k {
          assert r[j] == g;
        } else {
          assert j != k;
          assert r[j - 1] == g;
        }
      }
    }
  }

  /** Removal only ever erases one entry, and nothing when the entry is not registered. */
  lemma RemovedSize(list: seq<PollFunctions>, f: PollFunctions)
    ensures f in list ==> |Removed(list, f)| == |list| - 1
    ensures f !in list ==> Removed(list, f) == list
  {
  }

  /** Registering a new entry and then removing it gives back the original list. */
  lemma AddThenRemove(list: seq<PollFunctions>, f: PollFunctions)
    requires f !in list
    ensures Removed(Added(list, f), f) == list
  {
    var added := list + [f];
    assert FirstIndexOf(added, f) == Some(|list|);
    assert added[..|list|] == list;
  }
}
