/** The operator's calls as they run: reads and writes of stored objects, one after the other. */
module Operator {
  import opened Json
  import opened Trackers
  import opened Adoption
  import opened Promotion

  class Operator {
    var api: Api
    var left: nat
    var alive: bool

    constructor (a: Api, writes: nat)
      ensures Now() == Call(a, writes, true)
    {
      api, left, alive := a, writes, true;
    }

    ghost function Now(): Call
      reads this
    {
      Call(api, left, alive)
    }

    /** One API write, unless the process dies first. */
    method Send(next: Api) returns (ok: bool)
      requires alive
      modifies this
      ensures Now() == Write(old(Now()), next) && ok == alive
    {
      if left == 0 {
        alive := false;
        return false;
      }
      api, left := next, left - 1;
      ok := true;
    }

    method CreateTracker(cluster: bool) returns (ok: bool)
      requires alive
      modifies this
      ensures Now() == Create(old(Now()), cluster) && ok == alive
    {
      ok := true;
      if Tracker(api, cluster).None? {
        ok := Send(With(api, cluster, Some(Stored(api.issued, BLANK, true, false))).(issued := api.issued + 1));
      }
    }

    method FenceTracker() returns (ok: bool)
      requires alive && api.namespaced.Some?
      modifies this
      ensures Now() == Fence(old(Now())) && ok == alive
    {
      var t := api.namespaced.value;
      if t.status.promotedTo.Some? { return true; }
      var draft := new StatusDraft(t.status);
      draft.status := draft.status.(promotedTo := Some(Promotion(NAME, false)));
      draft.status := draft.status.(phase := Promoting);
      ok := Send(api.(namespaced := Some(t.(status := draft.status))));
    }

    method EnsureSuccessor(from: Status) returns (ok: bool)
      requires alive
      modifies this
      ensures Now() == CreateSuccessor(old(Now()), from) && ok == alive
    {
      if from.promotedTo.Some? && from.promotedTo.value.adopted { return true; }
      ok := CreateTracker(true);
      if !ok { return; }
      var current := api.cluster.value;
      var draft := new StatusDraft(current.status);
      AdoptStatus(draft, from);
      var stored := Some(current.(status := draft.status));
      ok := Send(api.(cluster := stored, log := api.log + [Copied(current.id, current.status, from)]));
    }

    method PromoteIfNeeded() returns (ok: bool)
      requires alive
      modifies this
      ensures Now() == Promote(old(Now())) && ok == alive
    {
      if api.namespaced.None? { return true; }
      ok := FenceTracker();
      if !ok { return; }
      ok := EnsureSuccessor(api.namespaced.value.status);
      if !ok { return; }
      var current := api.namespaced.value;
      if current.status.promotedTo.None? || current.status.promotedTo.value.adopted { return; }
      ok := Send(api.(namespaced := Some(current.(status := Adopted(current.status)))));
    }

    /** Also tells which tracker the contributor registers with: never a fenced one. */
    method EnsureTarget(clusterScoped: bool) returns (ok: bool, cluster: bool)
      requires alive
      modifies this
      ensures Now() == EnsureTracker(old(Now()), clusterScoped) && ok == alive
      ensures ok && !cluster ==> api.namespaced.Some? && !IsFenced(api.namespaced.value.status)
      ensures ok && api.cluster.Some? ==> cluster
    {
      cluster := clusterScoped;
      if clusterScoped {
        ok := PromoteIfNeeded();
        if !ok { return; }
      } else if api.cluster.Some? {
        return true, true;
      }
      ok := CreateTracker(clusterScoped);
      if ok && !clusterScoped && IsFenced(api.namespaced.value.status) {
        cluster := true;
      }
    }

    method DropFinalizer(cluster: bool) returns (ok: bool)
      requires alive && Tracker(api, cluster).Some?
      modifies this
      ensures Now() == Unpin(old(Now()), cluster) && ok == alive
    {
      var t := Tracker(api, cluster).value;
      if !t.finalizer { return true; }
      var next := Unpinned(t);
      ok := Send(With(api, cluster, next).(log := api.log + Gone(api, t, next)));
    }

    method DeleteTracker(cluster: bool) returns (ok: bool)
      requires alive
      modifies this
      ensures Now() == Remove(old(Now()), cluster) && ok == alive
    {
      if Tracker(api, cluster).None? { return true; }
      var t := Tracker(api, cluster).value;
      var next := Deleted(t);
      ok := Send(With(api, cluster, next).(log := api.log + Gone(api, t, next)));
    }

    method Finish(cluster: bool) returns (ok: bool)
      requires alive && Tracker(api, cluster).Some?
      modifies this
      ensures Now() == FinishPromotion(old(Now()), cluster) && ok == alive
    {
      var t := Tracker(api, cluster).value;
      if t.status.promotedTo.None? { return true; }
      if api.cluster.None? {
        var draft := new StatusDraft(t.status);
        draft.status := draft.status.(promotedTo := None);
        draft.status := draft.status.(phase := Applied);
        assert api.log + [] == api.log;
        ok := Send(With(api, cluster, Some(t.(status := draft.status))));
        return;
      }
      if !t.status.promotedTo.value.adopted { return true; }
      ok := DropFinalizer(cluster);
      if !ok { return; }
      ok := DeleteTracker(cluster);
    }
  }
}
