/** The reconciler as the program runs it: the API server and the type tracker are updated in place.
    Every method is tied to the transition system of module Runs. */
module Reconciler {
  import opened JsonTree
  import opened Engine
  import opened MergePatch
  import opened SharedTrees
  import opened NormalizeInPlace
  import opened Cluster
  import opened Runs

  /** A plan that can be made is carried out unless its write fails; else nothing changes. */
  ghost predicate CarriedOut(w: World, w': World, plan: Plan, key: ObjectKey, writeFails: bool, ok: bool) {
    && (ok <==> plan.Do? && (plan.change != Keep ==> !writeFails))
    && w' == if ok then ApplyChange(w, key, plan.change) else w
  }

  class ApiServer {
    var objects: Objects
    var log: seq<Write>

    method Get(key: ObjectKey, fails: bool) returns (r: Result<Option<Doc>>)
      ensures r == if fails then Failed else Ok(Lookup(objects, key))
    {
      return if fails then Failed else Ok(Lookup(objects, key));
    }

    /** List of one type in the owner's namespace, or in all of them. */
    method List(gvk: GVK, owner: Owner, fails: bool) returns (r: Result<Objects>)
      ensures r.Failed? <==> fails
      ensures r.Ok? ==> r.value.Keys == set k | k in objects && k.gvk == gvk && InScope(owner, k)
      ensures r.Ok? ==> forall k :: k in r.value ==> r.value[k] == objects[k]
    {
      if fails {
        return Failed;
      }
      return Ok(map k | k in objects && k.gvk == gvk && InScope(owner, k) :: objects[k]);
    }

    /** Create, Update, Patch or Delete of one object. A failed call has no effect. */
    method Write(key: ObjectKey, change: Change, fails: bool) returns (ok: bool)
      requires change != Keep
      modifies this
      ensures ok == !fails
      ensures objects == if ok then Cluster.Store(old(objects), key, After(Lookup(old(objects), key), change))
                         else old(objects)
      ensures log == if ok then old(log) + LogOf(key, change) else old(log)
    {
      ok := !fails;
      if ok {
        objects := Cluster.Store(objects, key, After(Lookup(objects, key), change));
        log := log + LogOf(key, change);
      }
    }
  }

  class Controller {
    const api: ApiServer
    var seenTypes: seq<GVK>
    var watched: seq<GVK>

    constructor (api: ApiServer)
      ensures this.api == api && seenTypes == [] && watched == []
    {
      this.api := api;
      seenTypes, watched := [], [];
    }

    ghost function View(): World
      reads this, api
    {
      World(api.objects, seenTypes, watched, api.log)
    }

    // ----- the type tracker -----

    method IsTypeTracked(gvk: GVK) returns (found: bool)
      ensures found == (gvk in seenTypes)
    {
      for i := 0 to |seenTypes|
        invariant gvk !in seenTypes[..i]
      {
        if seenTypes[i] == gvk {
          return true;
        }
      }
      return false;
    }

    method TrackType(gvk: GVK)
      modifies this`seenTypes
      ensures seenTypes == if gvk in old(seenTypes) then old(seenTypes) else old(seenTypes) + [gvk]
    {
      var found := IsTypeTracked(gvk);
      if !found {
        seenTypes := seenTypes + [gvk];
      }
    }

    method WatchOwned(gvk: GVK, fails: bool) returns (ok: bool)
      modifies this`watched
      ensures ok == !fails
      ensures watched == if ok then old(watched) + [gvk] else old(watched)
    {
      ok := !fails;
      if ok {
        watched := watched + [gvk];
      }
    }

    // ----- one template -----

    /** The object at the template's key becomes what Decide says, or nothing changes and an error is returned. */
    method CreateOrModify(owner: Owner, t: Template, buildFails: bool, getFails: bool, writeFails: bool)
      returns (ok: bool, ref: Option<ObjectKey>)
      modifies api
      ensures buildFails || getFails ==> !ok && View() == old(View())
      ensures !buildFails && !getFails ==>
                var plan := Decide(Lookup(old(api.objects), t.key), owner, t);
                CarriedOut(old(View()), View(), plan, t.key, writeFails, ok)
      ensures ok ==> ref == if t.enabled then Some(t.key) else None
    {
      var build := if buildFails then Failed else t.build(Lookup(api.objects, t.key));
      if build.Failed? {
        return false, None;
      }
      var desired := build.value;
      var got := api.Get(t.key, getFails);
      if got.Failed? {
        return false, None;
      }
      SameStore(api.objects, t.key, api.log);
      if got.value.None? {
        if !t.enabled {
          return true, None;
        }
        ok := CreateStamped(desired, owner, t.key, writeFails);
        return ok, if ok then Some(t.key) else None;
      }
      var live := got.value.value;
      if !t.enabled {
        ok := api.Write(t.key, Delete, writeFails);
        return ok, None;
      }
      ok := ModifyLive(live, desired, t, writeFails);
      return ok, if ok then Some(t.key) else None;
    }

    /** The steps for an enabled template whose object is missing. */
    method CreateStamped(desired: Doc, owner: Owner, key: ObjectKey, writeFails: bool) returns (ok: bool)
      modifies api
      ensures CarriedOut(old(View()), View(), DecideCreate(desired, owner), key, writeFails, ok)
    {
      var stamped := WithOwner(desired, owner);
      if stamped.Failed? {
        return false;
      }
      ok := api.Write(key, Create(stamped.value), writeFails);
    }

    /** The steps for an enabled template whose object was found. */
    method ModifyLive(live: Doc, desired: Doc, t: Template, writeFails: bool) returns (ok: bool)
      requires Lookup(api.objects, t.key) == Some(live)
      modifies api
      ensures CarriedOut(old(View()), View(), DecideModify(live, desired, t), t.key, writeFails, ok)
    {
      SameStore(api.objects, t.key, api.log);
      var normalizedDesired := NormalizeObject(desired, t.ensured, t.ignored);
      if normalizedDesired.Failed? {
        return false;
      }
      var normalizedLive := NormalizeObject(live, t.ensured, t.ignored);
      if normalizedLive.Failed? {
        return false;
      }
      LookNormalize(desired, t.ensured, t.ignored);
      if EqualTyped(normalizedLive.value, normalizedDesired.value, t.blanks) {
        return true;
      }
      var uLive := ReconcilePropertiesToUnstructured(live, normalizedDesired.value, t.ensured);
      if uLive.Failed? {
        return false;
      }
      match t.op
      case UpdateOp =>
        ok := api.Write(t.key, Update(uLive.value), writeFails);
      case PatchOp =>
        ok := api.Write(t.key, Patch(Diff(live.members, uLive.value.members)), writeFails);
      case UnknownOp =>
        ok := true;
    }

    /** The body of the template loop. */
    method ReconcileTemplate(owner: Owner, t: Template, i: nat, cfg: Config, managed: seq<ObjectKey>, requeue: bool)
      returns (ok: bool, managed': seq<ObjectKey>, requeue': bool)
      modifies this`seenTypes, this`watched, api
      ensures RunTemplate(Progress(old(View()), managed, requeue, true), owner, t, i, cfg) ==
              Progress(View(), managed', requeue', ok)
    {
      managed', requeue' := managed, requeue;
      var ref;
      PlanManages(Lookup(api.objects, t.key), owner, t);
      ok, ref := CreateOrModify(owner, t, BuildAt(i) in cfg.faults, GetAt(i) in cfg.faults, WriteAt(i) in cfg.faults);
      if !ok || ref.None? {
        return;
      }
      managed' := managed + [t.key];
      ok, requeue' := TrackNewType(t.key.gvk, i, cfg, managed', requeue);
    }

    /** A type not yet tracked is watched, if watches are on, and tracked. */
    method TrackNewType(gvk: GVK, i: nat, cfg: Config, ghost managed: seq<ObjectKey>, requeue: bool)
      returns (ok: bool, requeue': bool)
      modifies this`seenTypes, this`watched
      ensures Track(Progress(old(View()), managed, requeue, true), gvk, i, cfg) ==
              Progress(View(), managed, requeue', ok)
    {
      ok, requeue' := true, requeue;
      var tracked := IsTypeTracked(gvk);
      if !tracked {
        if cfg.dynamicWatches {
          ok := WatchOwned(gvk, WatchAt(i) in cfg.faults);
          if !ok {
            return;
          }
        }
        TrackType(gvk);
        requeue' := true;
      }
    }

    // ----- the pruner -----

    method IsPrunerEnabled(owner: Owner, cfg: Config) returns (enabled: bool)
      ensures enabled <==> cfg.pruner && (owner.pruneAnnotation.Some? ==> owner.pruneAnnotation.value !in OFF)
      ensures enabled == PrunerEnabled(owner, cfg)
    {
      // on by default, and also when the annotation does not parse
      var prune := true;
      if owner.pruneAnnotation.Some? {
        var parsed := ParseBool(owner.pruneAnnotation.value);
        prune := if parsed.Ok? then parsed.value else true;
      }
      return prune && cfg.pruner;
    }

    /** One object found by List: deleted if it is an orphan. */
    method PruneObject(k: ObjectKey, obj: Doc, owner: Owner, managed: seq<ObjectKey>, cfg: Config,
                       ghost w: World, ghost orphans: set<ObjectKey>, ghost dead: set<ObjectKey>)
      returns (ok: bool, ghost dead': set<ObjectKey>)
      requires AreOrphans(orphans, w, owner, managed) && Pruning(w, View(), orphans, cfg, dead)
      requires k in api.objects && obj == api.objects[k] && k.gvk in w.tracked && InScope(owner, k)
      modifies api
      ensures Pruning(w, View(), orphans, cfg, dead')
      ensures dead' == if ok && k in orphans then dead + {k} else dead
      ensures !ok ==> k in orphans && DeleteOf(k) in cfg.faults
      ensures forall j :: j != k ==> Lookup(api.objects, j) == Lookup(old(api.objects), j)
    {
      ok, dead' := true, dead;
      PruneStep(w, View(), owner, managed, cfg, orphans, dead, k);
      if IsOwned(obj, owner) && !IsBeingDeleted(obj) && k !in managed {
        ok := api.Write(k, Delete, DeleteOf(k) in cfg.faults);
        if ok {
          dead' := dead + {k};
        }
      }
    }

    /** The objects of one listing. */
    method PruneItems(items: Objects, gvk: GVK, owner: Owner, managed: seq<ObjectKey>, cfg: Config,
                      ghost w: World, ghost orphans: set<ObjectKey>, ghost dead: set<ObjectKey>)
      returns (ok: bool, ghost dead': set<ObjectKey>)
      requires AreOrphans(orphans, w, owner, managed) && Pruning(w, View(), orphans, cfg, dead) && gvk in w.tracked
      requires Listed(items, items.Keys, api.objects, gvk, owner)
      modifies api
      ensures Pruning(w, View(), orphans, cfg, dead') && dead <= dead'
      ensures ok ==> OnlyLeft(items, orphans, dead', {})
      ensures !ok ==> exists k :: k in orphans && DeleteOf(k) in cfg.faults
    {
      dead' := dead;
      var todo := items.Keys;
      while todo != {}
        invariant Pruning(w, View(), orphans, cfg, dead') && dead <= dead'
        invariant todo <= items.Keys && Listed(items, todo, api.objects, gvk, owner)
        invariant OnlyLeft(items, orphans, dead', todo)
        decreases todo
      {
        var k :| k in todo;
        ghost var before, deadBefore := api.objects, dead';
        ok, dead' := PruneObject(k, items[k], owner, managed, cfg, w, orphans, dead');
        if !ok {
          return;
        }
        StillListed(items, todo, before, api.objects, gvk, owner, k);
        OneLess(items, orphans, deadBefore, dead', todo, k);
        todo := todo - {k};
      }
      ok := true;
    }

    /** One type: list it, delete its orphans. */
    method PruneType(gvk: GVK, owner: Owner, managed: seq<ObjectKey>, cfg: Config,
                     ghost w: World, ghost orphans: set<ObjectKey>, ghost dead: set<ObjectKey>)
      returns (ok: bool, ghost dead': set<ObjectKey>)
      requires AreOrphans(orphans, w, owner, managed) && Pruning(w, View(), orphans, cfg, dead) && gvk in w.tracked
      modifies api
      ensures Pruning(w, View(), orphans, cfg, dead') && dead <= dead'
      ensures ok ==> TypePruned(gvk, orphans, cfg, dead')
      ensures !ok ==> ListOf(gvk) in cfg.faults || exists k :: k in orphans && DeleteOf(k) in cfg.faults
    {
      var list := api.List(gvk, owner, ListOf(gvk) in cfg.faults);
      if list.Failed? {
        return false, dead;
      }
      AllListed(w, View(), owner, managed, cfg, orphans, dead, gvk);
      ok, dead' := PruneItems(list.value, gvk, owner, managed, cfg, w, orphans, dead);
    }

    /** Deletes every orphan; when a call fails some orphans may already be deleted. */
    method PruneOrphaned(owner: Owner, managed: seq<ObjectKey>, cfg: Config)
      returns (ok: bool, ghost dead: set<ObjectKey>)
      modifies api
      ensures ok <==> !PruneFails(seenTypes, Orphans(old(View()), owner, managed), cfg)
      ensures dead <= Orphans(old(View()), owner, managed) && PrunedTo(old(View()), View(), dead)
      ensures ok ==> dead == Orphans(old(View()), owner, managed)
    {
      ghost var w := View();
      ghost var orphans := Orphans(w, owner, managed);
      dead := {};
      NothingPruned(w, orphans, cfg);
      for g := 0 to |seenTypes|
        invariant Pruning(w, View(), orphans, cfg, dead)
        invariant forall i :: 0 <= i < g ==> TypePruned(seenTypes[i], orphans, cfg, dead)
      {
        ok, dead := PruneType(seenTypes[g], owner, managed, cfg, w, orphans, dead);
        if !ok {
          assert seenTypes[g] in seenTypes;
          return;
        }
      }
      AllPruned(w, owner, managed, cfg, orphans, dead);
      ok := true;
    }

    // ----- the whole run -----

    method ReconcileOwnedResources(owner: Owner, ts: seq<Template>, cfg: Config) returns (out: Outcome)
      modifies this`seenTypes, this`watched, api
      ensures Ran(old(View()), owner, ts, cfg, View(), out)
    {
      ghost var w := View();
      var managed: seq<ObjectKey> := [];
      var requeue := false;
      for i := 0 to |ts|
        invariant RunTemplates(w, owner, ts[..i], cfg) == Progress(View(), managed, requeue, true)
      {
        assert ts[..i + 1][..i] == ts[..i];
        var ok;
        ok, managed, requeue := ReconcileTemplate(owner, ts[i], i, cfg, managed, requeue);
        if !ok {
          RunStuck(w, owner, ts, cfg, i + 1);
          return Error;
        }
      }
      assert ts[..|ts|] == ts;
      var prune := IsPrunerEnabled(owner, cfg);
      if prune {
        var ok;
        ghost var dead;
        ok, dead := PruneOrphaned(owner, managed, cfg);
        if !ok {
          return Error;
        }
      }
      return if requeue then Requeue else Continue;
    }
  }

  lemma SameStore(objects: Objects, k: ObjectKey, log: seq<Write>)
    ensures Cluster.Store(objects, k, Lookup(objects, k)) == objects
    ensures log + [] == log
  {
  }

  lemma {:induction false} RunStuck(w: World, owner: Owner, ts: seq<Template>, cfg: Config, n: nat)
    requires n <= |ts| && !RunTemplates(w, owner, ts[..n], cfg).ok
    ensures RunTemplates(w, owner, ts, cfg) == RunTemplates(w, owner, ts[..n], cfg)
    decreases |ts|
  {
    if n < |ts| {
      var front := ts[..|ts| - 1];
      assert front[..n] == ts[..n];
      RunStuck(w, owner, front, cfg, n);
    } else {
      assert ts[..n] == ts;
    }
  }

  /** An orphan not yet deleted is as it was. */
  lemma StillThere(w: World, w': World, dead: set<ObjectKey>, k: ObjectKey)
    requires PrunedTo(w, w', dead) && k in w.objects
    ensures k !in dead ==> k in w'.objects && w'.objects[k] == w.objects[k]
  {
  }

  ghost predicate AreOrphans(orphans: set<ObjectKey>, w: World, owner: Owner, managed: seq<ObjectKey>) {
    orphans == Orphans(w, owner, managed)
  }

  /** How far pruning has come: dead holds the orphans of world w deleted so far. */
  ghost predicate Pruning(w: World, now: World, orphans: set<ObjectKey>, cfg: Config, dead: set<ObjectKey>) {
    && dead <= orphans
    && PrunedTo(w, now, dead)
    && forall k :: k in dead ==> DeleteOf(k) !in cfg.faults
  }

  /** What is left of a listing is still what the API server has. */
  ghost predicate Listed(items: Objects, todo: set<ObjectKey>, objects: Objects, gvk: GVK, owner: Owner) {
    forall k :: k in todo ==>
      k in items && k in objects && items[k] == objects[k] && k.gvk == gvk && InScope(owner, k)
  }

  /** Every listed orphan is deleted or still to be visited. */
  ghost predicate OnlyLeft(items: Objects, orphans: set<ObjectKey>, dead: set<ObjectKey>, todo: set<ObjectKey>) {
    forall k :: k in items && k in orphans ==> k in dead || k in todo
  }

  lemma OneLess(items: Objects, orphans: set<ObjectKey>, dead: set<ObjectKey>, dead': set<ObjectKey>,
                todo: set<ObjectKey>, k: ObjectKey)
    requires OnlyLeft(items, orphans, dead, todo) && dead' == if k in orphans then dead + {k} else dead
    ensures OnlyLeft(items, orphans, dead', todo - {k}) && dead <= dead'
  {
  }

  lemma StillListed(items: Objects, todo: set<ObjectKey>, before: Objects, now: Objects, gvk: GVK, owner: Owner,
                    k: ObjectKey)
    requires Listed(items, todo, before, gvk, owner)
    requires forall j :: j != k ==> Lookup(now, j) == Lookup(before, j)
    ensures Listed(items, todo - {k}, now, gvk, owner)
  {
    forall j | j in todo - {k} ensures j in now && now[j] == before[j] {
      assert Lookup(now, j) == Lookup(before, j);
    }
  }

  ghost predicate TypePruned(gvk: GVK, orphans: set<ObjectKey>, cfg: Config, dead: set<ObjectKey>) {
    ListOf(gvk) !in cfg.faults && forall k :: k in orphans && k.gvk == gvk ==> k in dead
  }

  lemma NothingPruned(w: World, orphans: set<ObjectKey>, cfg: Config)
    ensures Pruning(w, w, orphans, cfg, {})
  {
  }

  lemma AllPruned(w: World, owner: Owner, managed: seq<ObjectKey>, cfg: Config, orphans: set<ObjectKey>,
                  dead: set<ObjectKey>)
    requires orphans == Orphans(w, owner, managed) && dead <= orphans
    requires forall i :: 0 <= i < |w.tracked| ==> TypePruned(w.tracked[i], orphans, cfg, dead)
    requires forall k :: k in dead ==> DeleteOf(k) !in cfg.faults
    ensures dead == orphans && !PruneFails(w.tracked, orphans, cfg)
  {
  }

  lemma AllListed(w: World, now: World, owner: Owner, managed: seq<ObjectKey>, cfg: Config,
                  orphans: set<ObjectKey>, dead: set<ObjectKey>, gvk: GVK)
    requires AreOrphans(orphans, w, owner, managed) && Pruning(w, now, orphans, cfg, dead)
    ensures forall k :: k in orphans && k.gvk == gvk ==> k in dead || (k in now.objects && InScope(owner, k))
  {
  }

  /** The effect of deleting one more orphan. */
  lemma PruneEffect(w: World, now: World, orphans: set<ObjectKey>, cfg: Config, dead: set<ObjectKey>, k: ObjectKey)
    requires Pruning(w, now, orphans, cfg, dead) && k in w.objects
    requires k in orphans && k !in dead && DeleteOf(k) !in cfg.faults
    ensures Pruning(w, ApplyChange(now, k, Delete), orphans, cfg, dead + {k})
  {
    OneMore(w, now, ApplyChange(now, k, Delete), dead, k);
  }

  /** The test on a listed object, and the effect of deleting it. */
  lemma PruneStep(w: World, now: World, owner: Owner, managed: seq<ObjectKey>, cfg: Config,
                  orphans: set<ObjectKey>, dead: set<ObjectKey>, k: ObjectKey)
    requires AreOrphans(orphans, w, owner, managed) && Pruning(w, now, orphans, cfg, dead)
    requires k in now.objects && k.gvk in w.tracked && InScope(owner, k)
    ensures IsOwned(now.objects[k], owner) && !IsBeingDeleted(now.objects[k]) && k !in managed <==>
            k in orphans && k !in dead
    ensures k in dead ==> dead + {k} == dead
    ensures k in orphans && k !in dead && DeleteOf(k) !in cfg.faults ==>
              Pruning(w, ApplyChange(now, k, Delete), orphans, cfg, dead + {k})
  {
    StillOrphan(w, now, owner, managed, dead, k);
    if k in orphans && k !in dead && DeleteOf(k) !in cfg.faults {
      PruneEffect(w, now, orphans, cfg, dead, k);
    }
  }

  /** An object found by List is to be deleted exactly when it was an orphan at the start and is not deleted yet. */
  lemma StillOrphan(w: World, w': World, owner: Owner, managed: seq<ObjectKey>, dead: set<ObjectKey>, k: ObjectKey)
    requires PrunedTo(w, w', dead) && k in w'.objects && k.gvk in w.tracked && InScope(owner, k)
    ensures k in w.objects
    ensures IsOwned(w'.objects[k], owner) && !IsBeingDeleted(w'.objects[k]) && k !in managed <==>
            k in Orphans(w, owner, managed) && k !in dead
  {
    DeletedIsGoneOrMarked(w.objects[k]);
  }

  lemma OneMore(w: World, w': World, w'': World, dead: set<ObjectKey>, k: ObjectKey)
    requires PrunedTo(w, w', dead) && k in w.objects && k !in dead
    requires w'' == ApplyChange(w', k, Delete)
    ensures PrunedTo(w, w'', dead + {k})
  {
    StillThere(w, w', dead, k);
    ObjectsAfterOneMore(w.objects, w''.objects, dead, k);
    DeletedOneMore(w'.log[|w.log|..], dead, k);
    assert w''.log[|w.log|..] == w'.log[|w.log|..] + [Write(k, Delete)];
  }

  lemma ObjectsAfterOneMore(objects: Objects, now: Objects, dead: set<ObjectKey>, k: ObjectKey)
    requires k in objects && k !in dead
    requires now == Cluster.Store(DeleteAll(objects, dead), k, Deleted(objects[k]))
    ensures now == DeleteAll(objects, dead + {k})
  {
    forall j ensures Lookup(now, j) == Lookup(DeleteAll(objects, dead + {k}), j) {
      LookupAfterDeletes(objects, dead, j);
      LookupAfterDeletes(objects, dead + {k}, j);
    }
    SameLookups(now, DeleteAll(objects, dead + {k}));
  }

  lemma SameLookups(a: Objects, b: Objects)
    requires forall k :: Lookup(a, k) == Lookup(b, k)
    ensures a == b
  {
    forall k | k in a || k in b ensures k in a && k in b && a[k] == b[k] {
      assert Lookup(a, k) == Lookup(b, k);
    }
  }
}
