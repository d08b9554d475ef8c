/** Whole runs of ReconcileOwnedResources as steps of a transition system over the cluster and the
    type tracker, with failures anywhere, and what holds after a run and over histories of runs. */
module Runs {
  import opened JsonTree
  import opened Engine
  import opened Cluster
  import opened Settling

  datatype Write = Write(key: ObjectKey, change: Change)

  datatype World = World(
    objects: Objects,
    tracked: seq<GVK>,   // typeTracker.seenTypes
    watched: seq<GVK>,   // successful Watch calls of the controller, in order
    log: seq<Write>)     // writes the API server accepted, in order

  /** A call that fails in this run; i is the position of the template. */
  datatype Fault =
    | BuildAt(i: nat)   // a read of one of the template's mutations
    | GetAt(i: nat)
    | WriteAt(i: nat)
    | WatchAt(i: nat)
    | ListOf(gvk: GVK)
    | DeleteOf(key: ObjectKey)

  datatype Config = Config(faults: set<Fault>, dynamicWatches: bool, pruner: bool)

  datatype Outcome = Continue | Requeue | Error

  // ----- the template loop -----

  datatype Progress = Progress(world: World, managed: seq<ObjectKey>, requeue: bool, ok: bool)

  function LogOf(key: ObjectKey, change: Change): seq<Write> {
    if change == Keep then [] else [Write(key, change)]
  }

  function ApplyChange(w: World, key: ObjectKey, change: Change): World {
    w.(objects := Store(w.objects, key, After(Lookup(w.objects, key), change)),
       log := w.log + LogOf(key, change))
  }

  /** One template of the list: CreateOrModify, then tracking its type if it is new. */
  function RunTemplate(p: Progress, owner: Owner, t: Template, i: nat, cfg: Config): Progress {
    if BuildAt(i) in cfg.faults || GetAt(i) in cfg.faults then p.(ok := false)
    else Execute(p, Decide(Lookup(p.world.objects, t.key), owner, t), t.key, i, cfg)
  }

  function Execute(p: Progress, plan: Plan, key: ObjectKey, i: nat, cfg: Config): Progress {
    match plan
    case Fail => p.(ok := false)
    case Do(change, managed) =>
      if change != Keep && WriteAt(i) in cfg.faults then p.(ok := false)
      else
        var w := ApplyChange(p.world, key, change);
        if !managed then p.(world := w)
        else Track(Progress(w, p.managed + [key], p.requeue, true), key.gvk, i, cfg)
  }

  lemma PlanManages(live: Option<Doc>, owner: Owner, t: Template)
    ensures var plan := Decide(live, owner, t); plan.Do? ==> plan.managed == t.enabled
  {
  }

  /** One executed plan: the tracker, the managed list, the log, and when it succeeds. */
  lemma Executed(p: Progress, plan: Plan, key: ObjectKey, i: nat, cfg: Config)
    requires p.ok
    ensures var q := Execute(p, plan, key, i, cfg);
            var tracks := plan.Do? && plan.managed;
            && p.world.tracked <= q.world.tracked && |q.world.log| >= |p.world.log|
            && (q.ok <==> && plan.Do? && (plan.change != Keep ==> WriteAt(i) !in cfg.faults)
                          && (tracks && key.gvk !in p.world.tracked && cfg.dynamicWatches ==>
                                WatchAt(i) !in cfg.faults))
            && (q.ok ==> && q.managed == p.managed + (if tracks then [key] else [])
                         && q.world.tracked == p.world.tracked +
                                               (if tracks && key.gvk !in p.world.tracked then [key.gvk] else [])
                         && q.world.objects == Store(p.world.objects, key,
                                                     After(Lookup(p.world.objects, key), plan.change))
                         && q.world.log == p.world.log +
                                           (if plan.change == Keep then [] else [Write(key, plan.change)]))
  {
  }

  function Track(p: Progress, gvk: GVK, i: nat, cfg: Config): Progress {
    if gvk in p.world.tracked then p
    else if cfg.dynamicWatches && WatchAt(i) in cfg.faults then p.(ok := false)
    else p.(world := p.world.(tracked := p.world.tracked + [gvk],
                              watched := p.world.watched + if cfg.dynamicWatches then [gvk] else []),
            requeue := true)
  }

  function RunTemplates(w: World, owner: Owner, ts: seq<Template>, cfg: Config): Progress {
    if ts == [] then Progress(w, [], false, true)
    else
      var p := RunTemplates(w, owner, ts[..|ts| - 1], cfg);
      if p.ok then RunTemplate(p, owner, ts[|ts| - 1], |ts| - 1, cfg) else p
  }

  // ----- the pruner -----

  /** strconv.ParseBool. */
  function ParseBool(s: string): Result<bool> {
    if s in ["1", "t", "T", "TRUE", "true", "True"] then Ok(true)
    else if s in ["0", "f", "F", "FALSE", "false", "False"] then Ok(false)
    else Failed
  }

  /** The pruner is off globally, or for one owner by an annotation that parses as false. */
  predicate PrunerEnabled(owner: Owner, cfg: Config) {
    cfg.pruner && (owner.pruneAnnotation.Some? ==> ParseBool(owner.pruneAnnotation.value) != Ok(false))
  }

  /** What a list in the owner's namespace returns; with no namespace that is every namespace. */
  predicate InScope(owner: Owner, k: ObjectKey) {
    owner.namespace == "" || k.namespace == owner.namespace
  }

  predicate IsOrphan(w: World, owner: Owner, managed: seq<ObjectKey>, k: ObjectKey) {
    && k in w.objects
    && k.gvk in w.tracked
    && InScope(owner, k)
    && IsOwned(w.objects[k], owner)
    && !IsBeingDeleted(w.objects[k])
    && k !in managed
  }

  function Orphans(w: World, owner: Owner, managed: seq<ObjectKey>): set<ObjectKey> {
    set k | k in w.objects && IsOrphan(w, owner, managed, k)
  }

  /** A live object of the owner that a list in its namespace finds: it is in that namespace, or the owner has none,
      has an entry with the owner's kind, name and apiVersion, and is not marked for deletion. */
  predicate LiveOf(objects: Objects, owner: Owner, k: ObjectKey) {
    && k in objects
    && (owner.namespace == "" || k.namespace == owner.namespace)
    && HasOwner(objects[k], owner) && !Marked(objects[k])
  }

  lemma LiveOfMeaning(objects: Objects, owner: Owner, k: ObjectKey)
    ensures LiveOf(objects, owner, k) <==>
              k in objects && InScope(owner, k) && IsOwned(objects[k], owner) && !IsBeingDeleted(objects[k])
  {
    if k in objects { MetadataMeaning(objects[k], owner); }
  }

  /** What the pruner deletes: the owner's live objects of tracked types that no enabled template managed. */
  lemma OrphanMeaning(w: World, owner: Owner, managed: seq<ObjectKey>, k: ObjectKey)
    ensures k in Orphans(w, owner, managed) <==>
              LiveOf(w.objects, owner, k) && k.gvk in w.tracked && k !in managed
  {
    LiveOfMeaning(w.objects, owner, k);
  }

  /** The values strconv.ParseBool reads as false. */
  const OFF: set<string> := {"0", "f", "F", "FALSE", "false", "False"}

  /** The pruner runs unless it is off globally or the annotation is one of the six spellings of false. */
  lemma PrunerSwitch(owner: Owner, cfg: Config)
    ensures PrunerEnabled(owner, cfg) <==>
              cfg.pruner && (owner.pruneAnnotation == None || owner.pruneAnnotation.value !in OFF)
  {
  }

  predicate PruneFails(tracked: seq<GVK>, orphans: set<ObjectKey>, cfg: Config) {
    || (exists gvk :: gvk in tracked && ListOf(gvk) in cfg.faults)
    || (exists k :: k in orphans && DeleteOf(k) in cfg.faults)
  }

  /** Objects after the deletes of dead. */
  function DeleteAll(objects: Objects, dead: set<ObjectKey>): Objects {
    map k | k in objects && !(k in dead && Deleted(objects[k]).None?) ::
      if k in dead then Deleted(objects[k]).value else objects[k]
  }

  /** One delete of each object of dead, in some order. */
  ghost predicate DeletedOnce(writes: seq<Write>, dead: set<ObjectKey>) {
    && |writes| == |dead|
    && (forall i :: 0 <= i < |writes| ==> writes[i].change == Delete && writes[i].key in dead)
    && forall k :: k in dead ==> Write(k, Delete) in writes
  }

  lemma DeletedOneMore(writes: seq<Write>, dead: set<ObjectKey>, k: ObjectKey)
    requires DeletedOnce(writes, dead) && k !in dead
    ensures DeletedOnce(writes + [Write(k, Delete)], dead + {k})
  {
    var now := writes + [Write(k, Delete)];
    assert now[|writes|] == Write(k, Delete);
    forall j | j in dead + {k} ensures Write(j, Delete) in now {}
  }

  ghost predicate PrunedTo(w: World, w': World, dead: set<ObjectKey>) {
    && w'.objects == DeleteAll(w.objects, dead)
    && w'.tracked == w.tracked && w'.watched == w.watched
    && w.log <= w'.log && DeletedOnce(w'.log[|w.log|..], dead)
  }

  // ----- one run -----

  /** The outcomes of one run; when the pruner fails, some orphans are already gone. */
  ghost predicate Ran(w: World, owner: Owner, ts: seq<Template>, cfg: Config, w': World, out: Outcome) {
    var p := RunTemplates(w, owner, ts, cfg);
    var done := if p.requeue then Requeue else Continue;
    if !p.ok then w' == p.world && out == Error
    else if !PrunerEnabled(owner, cfg) then w' == p.world && out == done
    else
      var orphans := Orphans(p.world, owner, p.managed);
      if PruneFails(p.world.tracked, orphans, cfg) then
        out == Error && exists dead :: dead <= orphans && PrunedTo(p.world, w', dead)
      else out == done && PrunedTo(p.world, w', orphans)
  }

  // ----- the tracker -----

  predicate NoDuplicates<T(==)>(s: seq<T>) {
    forall i, j :: 0 <= i < j < |s| ==> s[i] != s[j]
  }

  /** Every tracked type is tracked once and was watched by exactly one successful call. */
  predicate TrackerInv(w: World) {
    NoDuplicates(w.tracked) && w.watched == w.tracked
  }

  lemma TrackKeeps(p: Progress, gvk: GVK, i: nat, cfg: Config)
    requires TrackerInv(p.world) && cfg.dynamicWatches
    ensures var q := Track(p, gvk, i, cfg);
            && TrackerInv(q.world) && p.world.tracked <= q.world.tracked
            && (q.requeue <==> p.requeue || |q.world.tracked| > |p.world.tracked|)
  {
  }

  lemma StepTracks(p: Progress, owner: Owner, t: Template, i: nat, cfg: Config)
    requires TrackerInv(p.world) && cfg.dynamicWatches && p.ok
    ensures var q := RunTemplate(p, owner, t, i, cfg);
            && TrackerInv(q.world) && p.world.tracked <= q.world.tracked
            && (q.requeue <==> p.requeue || |q.world.tracked| > |p.world.tracked|)
  {
    match Decide(Lookup(p.world.objects, t.key), owner, t)
    case Fail =>
    case Do(change, managed) =>
      var w := ApplyChange(p.world, t.key, change);
      TrackKeeps(Progress(w, p.managed + [t.key], p.requeue, true), t.key.gvk, i, cfg);
  }

  lemma {:induction false} TemplatesTrack(w: World, owner: Owner, ts: seq<Template>, cfg: Config)
    requires TrackerInv(w) && cfg.dynamicWatches
    ensures var p := RunTemplates(w, owner, ts, cfg);
            && TrackerInv(p.world)
            && w.tracked <= p.world.tracked
            && (p.requeue <==> |p.world.tracked| > |w.tracked|)
    decreases |ts|
  {
    if ts != [] {
      TemplatesTrack(w, owner, ts[..|ts| - 1], cfg);
      var p := RunTemplates(w, owner, ts[..|ts| - 1], cfg);
      if p.ok { StepTracks(p, owner, ts[|ts| - 1], |ts| - 1, cfg); }
    }
  }

  /** One run, failing or not: tracked types only grow, stay free of duplicates, each keeps exactly one
      successful watch; a run that does not fail asks for a requeue exactly when the tracker grew. */
  lemma RunKeepsTracker(w: World, owner: Owner, ts: seq<Template>, cfg: Config, w': World, out: Outcome)
    requires TrackerInv(w) && cfg.dynamicWatches && Ran(w, owner, ts, cfg, w', out)
    ensures TrackerInv(w') && w.tracked <= w'.tracked
    ensures out != Error ==> (out == Requeue <==> w'.tracked != w.tracked)
  {
    TemplatesTrack(w, owner, ts, cfg);
  }

  /** A type gets tracked in a run only by an enabled template of that type whose watch did not fail. */
  lemma NewTypeWasWatched(w: World, owner: Owner, ts: seq<Template>, cfg: Config, w': World, out: Outcome, gvk: GVK)
    requires cfg.dynamicWatches && Ran(w, owner, ts, cfg, w', out)
    requires gvk in w'.tracked && gvk !in w.tracked
    ensures exists i :: 0 <= i < |ts| && Watched(ts[i], i, cfg, gvk)
  {
    var i := TemplateThatTracked(w, owner, ts, cfg, gvk);
  }

  predicate Watched(t: Template, i: nat, cfg: Config, gvk: GVK) {
    t.enabled && t.key.gvk == gvk && WatchAt(i) !in cfg.faults
  }

  lemma {:induction false} TemplateThatTracked(w: World, owner: Owner, ts: seq<Template>, cfg: Config, gvk: GVK)
    returns (i: nat)
    requires cfg.dynamicWatches
    requires gvk in RunTemplates(w, owner, ts, cfg).world.tracked && gvk !in w.tracked
    ensures i < |ts| && Watched(ts[i], i, cfg, gvk)
    decreases |ts|
  {
    var p := RunTemplates(w, owner, ts[..|ts| - 1], cfg);
    if gvk in p.world.tracked {
      i := TemplateThatTracked(w, owner, ts[..|ts| - 1], cfg, gvk);
    } else {
      i := |ts| - 1;
      StepAdds(p, owner, ts[i], i, cfg, gvk);
    }
  }

  lemma StepAdds(p: Progress, owner: Owner, t: Template, i: nat, cfg: Config, gvk: GVK)
    requires p.ok && cfg.dynamicWatches && gvk !in p.world.tracked
    ensures gvk in RunTemplate(p, owner, t, i, cfg).world.tracked ==> Watched(t, i, cfg, gvk)
  {
    match Decide(Lookup(p.world.objects, t.key), owner, t)
    case Fail =>
    case Do(change, managed) =>
      TrackAdds(Progress(ApplyChange(p.world, t.key, change), p.managed + [t.key], p.requeue, true), t, i, cfg, gvk);
      assert managed ==> t.enabled;
  }

  lemma TrackAdds(p: Progress, t: Template, i: nat, cfg: Config, gvk: GVK)
    requires cfg.dynamicWatches && gvk !in p.world.tracked
    ensures gvk in Track(p, t.key.gvk, i, cfg).world.tracked ==> t.key.gvk == gvk && WatchAt(i) !in cfg.faults
  {
  }

  predicate EnabledType(ts: seq<Template>, gvk: GVK) {
    exists i :: 0 <= i < |ts| && ts[i].enabled && ts[i].key.gvk == gvk
  }

  lemma StepTypes(p: Progress, owner: Owner, t: Template, i: nat, cfg: Config, gvk: GVK)
    requires p.ok
    ensures var q := RunTemplate(p, owner, t, i, cfg);
            q.ok ==> (gvk in q.world.tracked <==> gvk in p.world.tracked || (t.enabled && t.key.gvk == gvk))
  {
    PlanManages(Lookup(p.world.objects, t.key), owner, t);
    Executed(p, Decide(Lookup(p.world.objects, t.key), owner, t), t.key, i, cfg);
  }

  lemma EnabledTypeSnoc(ts: seq<Template>, gvk: GVK)
    requires ts != []
    ensures EnabledType(ts, gvk) <==>
            EnabledType(ts[..|ts| - 1], gvk) || (ts[|ts| - 1].enabled && ts[|ts| - 1].key.gvk == gvk)
  {
  }

  /** After a loop that succeeds the tracked types are those of before and those of the enabled templates. */
  lemma {:induction false} TypesTracked(w: World, owner: Owner, ts: seq<Template>, cfg: Config, gvk: GVK)
    requires RunTemplates(w, owner, ts, cfg).ok
    ensures gvk in RunTemplates(w, owner, ts, cfg).world.tracked <==> gvk in w.tracked || EnabledType(ts, gvk)
    decreases |ts|
  {
    if ts != [] {
      LoopStep(w, owner, ts, cfg);
      TypesTracked(w, owner, ts[..|ts| - 1], cfg, gvk);
      LastTypeTracked(w, owner, ts, cfg, gvk);
      EnabledTypeSnoc(ts, gvk);
    }
  }

  lemma LastTypeTracked(w: World, owner: Owner, ts: seq<Template>, cfg: Config, gvk: GVK)
    requires ts != [] && RunTemplates(w, owner, ts, cfg).ok
    ensures var p, t := RunTemplates(w, owner, ts[..|ts| - 1], cfg), ts[|ts| - 1];
            && p.ok
            && (gvk in RunTemplates(w, owner, ts, cfg).world.tracked <==>
                gvk in p.world.tracked || (t.enabled && t.key.gvk == gvk))
  {
    var p := RunTemplates(w, owner, ts[..|ts| - 1], cfg);
    if p.ok { StepTypes(p, owner, ts[|ts| - 1], |ts| - 1, cfg, gvk); }
  }

  lemma LoopStep(w: World, owner: Owner, ts: seq<Template>, cfg: Config)
    requires ts != []
    ensures var p := RunTemplates(w, owner, ts[..|ts| - 1], cfg);
            RunTemplates(w, owner, ts, cfg) == if p.ok then RunTemplate(p, owner, ts[|ts| - 1], |ts| - 1, cfg) else p
  {
  }

  /** A run that does not fail tracks exactly the types of its enabled templates besides the old ones. */
  lemma SuccessfulRunTracks(w: World, owner: Owner, ts: seq<Template>, cfg: Config, w': World, out: Outcome, gvk: GVK)
    requires Ran(w, owner, ts, cfg, w', out) && out != Error
    ensures gvk in w'.tracked <==> gvk in w.tracked || EnabledType(ts, gvk)
  {
    TypesTracked(w, owner, ts, cfg, gvk);
  }

  // ----- what the template loop does to the cluster -----

  predicate DistinctKeys(ts: seq<Template>) {
    forall i, j :: 0 <= i < j < |ts| ==> ts[i].key != ts[j].key
  }

  predicate Names(ts: seq<Template>, k: ObjectKey) {
    exists i :: 0 <= i < |ts| && ts[i].key == k
  }

  lemma NamesSnoc(ts: seq<Template>, k: ObjectKey)
    requires ts != []
    ensures Names(ts, k) <==> Names(ts[..|ts| - 1], k) || ts[|ts| - 1].key == k
  {
  }

  /** One template touches the object at its own key only, and makes of it what it decided. */
  lemma StepApplies(p: Progress, owner: Owner, t: Template, i: nat, cfg: Config)
    requires p.ok
    ensures var q := RunTemplate(p, owner, t, i, cfg);
            var plan := Decide(Lookup(p.world.objects, t.key), owner, t);
            && (forall k :: k != t.key ==> Lookup(q.world.objects, k) == Lookup(p.world.objects, k))
            && (q.ok ==> && plan.Do?
                         && Lookup(q.world.objects, t.key) == After(Lookup(p.world.objects, t.key), plan.change))
  {
    PlanManages(Lookup(p.world.objects, t.key), owner, t);
    Executed(p, Decide(Lookup(p.world.objects, t.key), owner, t), t.key, i, cfg);
  }

  lemma StepManages(p: Progress, owner: Owner, t: Template, i: nat, cfg: Config)
    requires p.ok
    ensures var q := RunTemplate(p, owner, t, i, cfg);
            q.ok ==> && q.managed == p.managed + (if t.enabled then [t.key] else [])
                     && (t.enabled ==> t.key.gvk in q.world.tracked)
                     && p.world.tracked <= q.world.tracked
  {
    PlanManages(Lookup(p.world.objects, t.key), owner, t);
    Executed(p, Decide(Lookup(p.world.objects, t.key), owner, t), t.key, i, cfg);
  }

  /** Outside the template keys nothing changes, for any list of templates and any failures. */
  lemma {:induction false} TemplatesFrame(w: World, owner: Owner, ts: seq<Template>, cfg: Config, k: ObjectKey)
    requires !Names(ts, k)
    ensures Lookup(RunTemplates(w, owner, ts, cfg).world.objects, k) == Lookup(w.objects, k)
    decreases |ts|
  {
    if ts != [] {
      NamesSnoc(ts, k);
      TemplatesFrame(w, owner, ts[..|ts| - 1], cfg, k);
      var p := RunTemplates(w, owner, ts[..|ts| - 1], cfg);
      if p.ok { StepApplies(p, owner, ts[|ts| - 1], |ts| - 1, cfg); }
    }
  }

  /** When the loop succeeds, each template's object is what its own decision made of the object found. */
  lemma {:induction false} TemplatesApply(w: World, owner: Owner, ts: seq<Template>, cfg: Config, i: nat)
    requires DistinctKeys(ts) && RunTemplates(w, owner, ts, cfg).ok && i < |ts|
    ensures var plan := Decide(Lookup(w.objects, ts[i].key), owner, ts[i]);
            && plan.Do?
            && Lookup(RunTemplates(w, owner, ts, cfg).world.objects, ts[i].key) ==
               After(Lookup(w.objects, ts[i].key), plan.change)
    decreases |ts|, 1
  {
    var p := RunTemplates(w, owner, ts[..|ts| - 1], cfg);
    var q := RunTemplates(w, owner, ts, cfg);
    assert p.ok && q == RunTemplate(p, owner, ts[|ts| - 1], |ts| - 1, cfg);
    AppliedBy(w, owner, ts, cfg, i, p, q);
  }

  lemma {:induction false} AppliedBy(w: World, owner: Owner, ts: seq<Template>, cfg: Config, i: nat,
                                     p: Progress, q: Progress)
    requires DistinctKeys(ts) && i < |ts| && p.ok && q.ok
    requires p == RunTemplates(w, owner, ts[..|ts| - 1], cfg)
    requires q == RunTemplate(p, owner, ts[|ts| - 1], |ts| - 1, cfg)
    ensures var plan := Decide(Lookup(w.objects, ts[i].key), owner, ts[i]);
            plan.Do? && Lookup(q.world.objects, ts[i].key) == After(Lookup(w.objects, ts[i].key), plan.change)
    decreases |ts|, 0
  {
    var front, t := ts[..|ts| - 1], ts[|ts| - 1];
    StepApplies(p, owner, t, |front|, cfg);
    if i < |front| {
      assert front[i] == ts[i] && ts[i].key != t.key;
      TemplatesApply(w, owner, front, cfg, i);
    } else {
      LastKeyIsNew(ts);
      TemplatesFrame(w, owner, front, cfg, t.key);
    }
  }

  lemma LastKeyIsNew(ts: seq<Template>)
    requires ts != [] && DistinctKeys(ts)
    ensures !Names(ts[..|ts| - 1], ts[|ts| - 1].key)
  {
  }

  predicate Enabled(ts: seq<Template>, k: ObjectKey) {
    exists i :: 0 <= i < |ts| && ts[i].key == k && ts[i].enabled
  }

  lemma EnabledSnoc(ts: seq<Template>, k: ObjectKey)
    requires ts != []
    ensures Enabled(ts, k) <==> Enabled(ts[..|ts| - 1], k) || (ts[|ts| - 1].key == k && ts[|ts| - 1].enabled)
  {
  }

  lemma {:induction false} ManagedBy(w: World, owner: Owner, ts: seq<Template>, cfg: Config, k: ObjectKey,
                                     p: Progress, q: Progress)
    requires ts != [] && p.ok && q.ok
    requires p == RunTemplates(w, owner, ts[..|ts| - 1], cfg)
    requires q == RunTemplate(p, owner, ts[|ts| - 1], |ts| - 1, cfg)
    ensures k in q.managed <==> Enabled(ts, k)
    ensures k in q.managed ==> k.gvk in q.world.tracked
    decreases |ts|, 0
  {
    TemplatesManage(w, owner, ts[..|ts| - 1], cfg, k);
    EnabledSnoc(ts, k);
    StepManages(p, owner, ts[|ts| - 1], |ts| - 1, cfg);
  }

  /** After a successful loop the managed list holds exactly the keys of enabled templates, and their types
      are tracked. */
  lemma {:induction false} TemplatesManage(w: World, owner: Owner, ts: seq<Template>, cfg: Config, k: ObjectKey)
    requires RunTemplates(w, owner, ts, cfg).ok
    ensures var p := RunTemplates(w, owner, ts, cfg);
            && (k in p.managed <==> Enabled(ts, k))
            && (k in p.managed ==> k.gvk in p.world.tracked)
    decreases |ts|, 1
  {
    if ts != [] {
      var front, t := ts[..|ts| - 1], ts[|ts| - 1];
      var p := RunTemplates(w, owner, front, cfg);
      var q := RunTemplates(w, owner, ts, cfg);
      assert p.ok && q == RunTemplate(p, owner, t, |front|, cfg);
      ManagedBy(w, owner, ts, cfg, k, p, q);
    }
  }

  // ----- when the template loop succeeds -----

  /** Template i is the first enabled one of a type that is not tracked yet. */
  predicate FirstOfType(w: World, ts: seq<Template>, i: nat)
    requires i < |ts|
  {
    ts[i].enabled && ts[i].key.gvk !in w.tracked && !EnabledType(ts[..i], ts[i].key.gvk)
  }

  /** No call of template i fails, judged by the cluster and the tracker before the run. */
  predicate Passes(w: World, owner: Owner, ts: seq<Template>, cfg: Config, i: nat)
    requires i < |ts|
  {
    var plan := Decide(Lookup(w.objects, ts[i].key), owner, ts[i]);
    && BuildAt(i) !in cfg.faults && GetAt(i) !in cfg.faults
    && plan.Do? && (plan.change != Keep ==> WriteAt(i) !in cfg.faults)
    && (FirstOfType(w, ts, i) && cfg.dynamicWatches ==> WatchAt(i) !in cfg.faults)
  }

  lemma StepSucceeds(p: Progress, owner: Owner, t: Template, i: nat, cfg: Config)
    requires p.ok
    ensures RunTemplate(p, owner, t, i, cfg).ok <==>
            var plan := Decide(Lookup(p.world.objects, t.key), owner, t);
            && BuildAt(i) !in cfg.faults && GetAt(i) !in cfg.faults
            && plan.Do? && (plan.change != Keep ==> WriteAt(i) !in cfg.faults)
            && (t.enabled && t.key.gvk !in p.world.tracked && cfg.dynamicWatches ==> WatchAt(i) !in cfg.faults)
  {
    PlanManages(Lookup(p.world.objects, t.key), owner, t);
    Executed(p, Decide(Lookup(p.world.objects, t.key), owner, t), t.key, i, cfg);
  }

  lemma LastIsFirstOfType(w: World, owner: Owner, ts: seq<Template>, cfg: Config, t: Template)
    requires ts != [] && RunTemplates(w, owner, ts[..|ts| - 1], cfg).ok && t == ts[|ts| - 1]
    ensures FirstOfType(w, ts, |ts| - 1) <==>
            t.enabled && t.key.gvk !in RunTemplates(w, owner, ts[..|ts| - 1], cfg).world.tracked
  {
    TypesTracked(w, owner, ts[..|ts| - 1], cfg, t.key.gvk);
  }

  lemma LastPasses(w: World, owner: Owner, ts: seq<Template>, cfg: Config, p: Progress, t: Template)
    requires ts != [] && DistinctKeys(ts) && p.ok && p == RunTemplates(w, owner, ts[..|ts| - 1], cfg)
    requires t == ts[|ts| - 1]
    ensures RunTemplate(p, owner, t, |ts| - 1, cfg).ok <==> Passes(w, owner, ts, cfg, |ts| - 1)
  {
    LastFindsFirst(w, owner, ts, cfg, t);
    LastIsFirstOfType(w, owner, ts, cfg, t);
    StepSucceeds(p, owner, t, |ts| - 1, cfg);
  }

  /** The loop over templates with distinct keys succeeds if and only if every build, read, decision and write
      succeeds, and the watch of the first enabled template of each untracked type. */
  lemma {:induction false} TemplatesSucceed(w: World, owner: Owner, ts: seq<Template>, cfg: Config)
    requires DistinctKeys(ts)
    ensures RunTemplates(w, owner, ts, cfg).ok <==> forall i :: 0 <= i < |ts| ==> Passes(w, owner, ts, cfg, i)
    decreases |ts|
  {
    if ts != [] {
      var front := ts[..|ts| - 1];
      TemplatesSucceed(w, owner, front, cfg);
      LoopStep(w, owner, ts, cfg);
      forall i | 0 <= i < |front| ensures Passes(w, owner, front, cfg, i) <==> Passes(w, owner, ts, cfg, i) {
        assert front[i] == ts[i] && front[..i] == ts[..i];
      }
      var p := RunTemplates(w, owner, front, cfg);
      if p.ok { LastPasses(w, owner, ts, cfg, p, ts[|ts| - 1]); }
    }
  }

  // ----- the cluster after a run -----

  /** Safety of every run, failing ones and half-done pruning included: an object that no template names is not
      touched, unless the pruner is on and it is a live object of the owner, of a tracked or enabled type. */
  lemma RunFrame(w: World, owner: Owner, ts: seq<Template>, cfg: Config, w': World, out: Outcome, k: ObjectKey)
    requires Ran(w, owner, ts, cfg, w', out) && !Names(ts, k)
    requires !(LiveOf(w.objects, owner, k) && (k.gvk in w.tracked || EnabledType(ts, k.gvk)) && cfg.pruner
               && (owner.pruneAnnotation.Some? ==> owner.pruneAnnotation.value !in OFF))
    ensures Lookup(w'.objects, k) == Lookup(w.objects, k)
  {
    TemplatesFrame(w, owner, ts, cfg, k);
    PrunerSwitch(owner, cfg);
    var p := RunTemplates(w, owner, ts, cfg);
    if w' != p.world {
      var dead :| dead <= Orphans(p.world, owner, p.managed) && PrunedTo(p.world, w', dead);
      TypesTracked(w, owner, ts, cfg, k.gvk);
      NoOrphanAt(p.world, w.objects, owner, p.managed, k);
      LookupAfterDeletes(p.world.objects, dead, k);
    }
  }

  lemma NoOrphanAt(w: World, before: Objects, owner: Owner, managed: seq<ObjectKey>, k: ObjectKey)
    requires Lookup(w.objects, k) == Lookup(before, k) && !(LiveOf(before, owner, k) && k.gvk in w.tracked)
    ensures k !in Orphans(w, owner, managed)
  {
    OrphanMeaning(w, owner, managed, k);
    assert k in w.objects <==> k in before;
  }

  // ----- the cluster after a successful run -----

  lemma LookupAfterDeletes(objects: Objects, dead: set<ObjectKey>, k: ObjectKey)
    ensures Lookup(DeleteAll(objects, dead), k) ==
            if k in objects && k in dead then Deleted(objects[k]) else Lookup(objects, k)
  {
  }

  /** The postcondition of a run that did not fail, with the pruner on and distinct template keys. */
  lemma SuccessfulRun(w: World, owner: Owner, ts: seq<Template>, cfg: Config, w': World, out: Outcome)
    requires Ran(w, owner, ts, cfg, w', out) && out != Error && PrunerEnabled(owner, cfg) && DistinctKeys(ts)
    ensures forall i :: 0 <= i < |ts| && ts[i].enabled ==> ts[i].key in w'.objects
    ensures forall i :: 0 <= i < |ts| && !ts[i].enabled ==>
              ts[i].key !in w'.objects || Marked(w'.objects[ts[i].key])
    ensures forall k :: LiveOf(w'.objects, owner, k) && k.gvk in w'.tracked ==> Enabled(ts, k)
  {
    var p := RunTemplates(w, owner, ts, cfg);
    var dead := Orphans(p.world, owner, p.managed);
    forall k ensures Lookup(w'.objects, k) ==
                     if k in p.world.objects && k in dead then Deleted(p.world.objects[k])
                     else Lookup(p.world.objects, k)
    {
      LookupAfterDeletes(p.world.objects, dead, k);
    }
    forall i | 0 <= i < |ts|
      ensures ts[i].enabled ==> ts[i].key in w'.objects
      ensures !ts[i].enabled ==> ts[i].key !in w'.objects || Marked(w'.objects[ts[i].key])
    {
      var k := ts[i].key;
      TemplatesApply(w, owner, ts, cfg, i);
      TemplatesManage(w, owner, ts, cfg, k);
      EnabledExistsDisabledGoes(Lookup(w.objects, k), owner, ts[i]);
      if k in p.world.objects { DeletedIsGoneOrMarked(p.world.objects[k]); }
    }
    forall k | LiveOf(w'.objects, owner, k) && k.gvk in w'.tracked ensures Enabled(ts, k) {
      DeletedIsGoneOrMarked(p.world.objects[k]);
      OrphanMeaning(p.world, owner, p.managed, k);
      TemplatesManage(w, owner, ts, cfg, k);
    }
  }

  lemma EnabledExistsDisabledGoes(live: Option<Doc>, owner: Owner, t: Template)
    requires Decide(live, owner, t).Do?
    ensures var after := After(live, Decide(live, owner, t).change);
            if t.enabled then after.Some? else after.None? || Marked(after.value)
  {
    if !t.enabled && live.Some? {
      DisabledDeletes(live.value, owner, t);
      DeletedIsGoneOrMarked(live.value);
    }
  }

  /** The object at a template's key after a run that did not fail: pruning does not touch it. */
  lemma TemplateObject(w: World, owner: Owner, ts: seq<Template>, cfg: Config, w': World, out: Outcome, i: nat)
    requires Ran(w, owner, ts, cfg, w', out) && out != Error && DistinctKeys(ts) && i < |ts|
    ensures var plan := Decide(Lookup(w.objects, ts[i].key), owner, ts[i]);
            plan.Do? && Lookup(w'.objects, ts[i].key) == After(Lookup(w.objects, ts[i].key), plan.change)
    ensures ts[i].enabled ==> ts[i].key.gvk in w'.tracked
  {
    var p := RunTemplates(w, owner, ts, cfg);
    var t := ts[i];
    TemplatesApply(w, owner, ts, cfg, i);
    TemplatesManage(w, owner, ts, cfg, t.key);
    EnabledExistsDisabledGoes(Lookup(w.objects, t.key), owner, t);
    assert t.enabled ==> Enabled(ts, t.key);
    if PrunerEnabled(owner, cfg) { PruneKeeps(p.world, owner, p.managed, w', t.key); }
  }

  lemma PruneKeeps(w: World, owner: Owner, managed: seq<ObjectKey>, w': World, k: ObjectKey)
    requires PrunedTo(w, w', Orphans(w, owner, managed))
    requires k in managed || k !in w.objects || Marked(w.objects[k])
    ensures Lookup(w'.objects, k) == Lookup(w.objects, k)
  {
    OrphanMeaning(w, owner, managed, k);
    LookupAfterDeletes(w.objects, Orphans(w, owner, managed), k);
  }

  /** The object normalises to the same typed object as the desired one. */
  ghost predicate Converged(doc: Doc, desired: Doc, t: Template) {
    var n, nd := Normalize(doc, t.ensured, t.ignored), Normalize(desired, t.ensured, t.ignored);
    n.Ok? && nd.Ok? && SameTyped(n.value, nd.value, t.blanks)
  }

  /** Convergence: after a run that did not fail every enabled template finds its object, and the object
      normalises to the same typed object as the template's desired object if and only if the pass settled it. */
  lemma SuccessfulRunConverges(w: World, owner: Owner, ts: seq<Template>, cfg: Config, w': World, out: Outcome, i: nat)
    requires Ran(w, owner, ts, cfg, w', out) && out != Error && DistinctKeys(ts) && i < |ts|
    requires ts[i].enabled && !ts[i].op.UnknownOp?
    ensures var t, live := ts[i], Lookup(w.objects, ts[i].key);
            && t.key in w'.objects && t.build(live).Ok?
            && (Converged(w'.objects[t.key], t.build(live).value, t) <==> SettlesOn(live, owner, t))
  {
    var t, live := ts[i], Lookup(w.objects, ts[i].key);
    TemplateObject(w, owner, ts, cfg, w', out, i);
    OnePass(live, owner, t);
    KeepMeansConverged(w'.objects[t.key], t.build(live).value, t);
  }

  lemma KeepMeansConverged(live: Doc, desired: Doc, t: Template)
    requires !t.op.UnknownOp?
    ensures DecideModify(live, desired, t) == Do(Keep, true) <==> Converged(live, desired, t)
  {
    if [] !in t.ensured {
      KeepIsSameTyped(live, desired, t);
    } else {
      LookNormalize(desired, t.ensured, t.ignored);
    }
  }

  // ----- stabilisation -----

  ghost predicate AllStable(w: World, owner: Owner, ts: seq<Template>) {
    forall i :: 0 <= i < |ts| ==> Stable(Lookup(w.objects, ts[i].key), owner, ts[i])
  }

  ghost predicate AllSettle(w: World, owner: Owner, ts: seq<Template>) {
    forall i :: 0 <= i < |ts| ==> SettlesOn(Lookup(w.objects, ts[i].key), owner, ts[i])
  }

  /** From any cluster and tracker: the next run over the same templates without failures finds nothing to do
      (no create, update, patch or delete, the tracker does not move, the result is Continue) if and only if
      every template's pass of the first run settled its object. */
  lemma SecondRunIsQuiet(w: World, owner: Owner, ts: seq<Template>, cfg: Config, w1: World, out1: Outcome,
                         cfg2: Config, w2: World, out2: Outcome)
    requires Ran(w, owner, ts, cfg, w1, out1) && out1 != Error
    requires cfg2 == cfg.(faults := {}) && Ran(w1, owner, ts, cfg2, w2, out2)
    requires DistinctKeys(ts) && AllStable(w, owner, ts)
    ensures out2 == Continue && w2 == w1 <==> AllSettle(w, owner, ts)
  {
    forall i | 0 <= i < |ts|
      ensures QuietTemplate(w1, owner, ts[i]) <==> SettlesOn(Lookup(w.objects, ts[i].key), owner, ts[i])
    {
      TemplateObject(w, owner, ts, cfg, w1, out1, i);
      SecondPass(Lookup(w.objects, ts[i].key), owner, ts[i]);
    }
    if AllSettle(w, owner, ts) {
      QuietRun(w, owner, ts, cfg, w1, out1, cfg2, w2, out2);
    } else {
      var i :| 0 <= i < |ts| && !SettlesOn(Lookup(w.objects, ts[i].key), owner, ts[i]);
      TemplateObject(w, owner, ts, cfg, w1, out1, i);
      NoisyRun(w1, owner, ts, cfg2, w2, out2, i);
    }
  }

  lemma QuietRun(w: World, owner: Owner, ts: seq<Template>, cfg: Config, w1: World, out1: Outcome,
                 cfg2: Config, w2: World, out2: Outcome)
    requires Ran(w, owner, ts, cfg, w1, out1) && out1 != Error
    requires cfg2 == cfg.(faults := {}) && Ran(w1, owner, ts, cfg2, w2, out2)
    requires forall i :: 0 <= i < |ts| ==> QuietTemplate(w1, owner, ts[i])
    ensures out2 == Continue && w2 == w1
  {
    QuietTemplates(w1, owner, ts, cfg2);
    var p := RunTemplates(w, owner, ts, cfg);
    var q := RunTemplates(w1, owner, ts, cfg2);
    if PrunerEnabled(owner, cfg) {
      forall k ensures k in p.managed <==> k in q.managed {
        TemplatesManage(w, owner, ts, cfg, k);
        TemplatesManage(w1, owner, ts, cfg2, k);
      }
      NothingLeftToPrune(p.world, w1, owner, p.managed, q.managed, w2);
    }
  }

  lemma StepLogs(p: Progress, owner: Owner, t: Template, i: nat, cfg: Config)
    requires p.ok
    ensures var q := RunTemplate(p, owner, t, i, cfg);
            && |q.world.log| >= |p.world.log|
            && (q.ok && |q.world.log| == |p.world.log| ==>
                  Decide(Lookup(p.world.objects, t.key), owner, t) == Do(Keep, t.enabled))
  {
    PlanManages(Lookup(p.world.objects, t.key), owner, t);
    Executed(p, Decide(Lookup(p.world.objects, t.key), owner, t), t.key, i, cfg);
  }

  lemma {:induction false} LogGrows(w: World, owner: Owner, ts: seq<Template>, cfg: Config)
    ensures |RunTemplates(w, owner, ts, cfg).world.log| >= |w.log|
    decreases |ts|
  {
    if ts != [] {
      LogGrows(w, owner, ts[..|ts| - 1], cfg);
      var p := RunTemplates(w, owner, ts[..|ts| - 1], cfg);
      if p.ok { StepLogs(p, owner, ts[|ts| - 1], |ts| - 1, cfg); }
    }
  }

  /** The last template of a loop that succeeds without a write. */
  lemma LastKept(w: World, owner: Owner, ts: seq<Template>, cfg: Config)
    requires ts != [] && RunTemplates(w, owner, ts, cfg).ok && |RunTemplates(w, owner, ts, cfg).world.log| == |w.log|
    ensures var p := RunTemplates(w, owner, ts[..|ts| - 1], cfg);
            var t := ts[|ts| - 1];
            && p.ok && |p.world.log| == |w.log|
            && Decide(Lookup(p.world.objects, t.key), owner, t) == Do(Keep, t.enabled)
  {
    var p := RunTemplates(w, owner, ts[..|ts| - 1], cfg);
    LogGrows(w, owner, ts[..|ts| - 1], cfg);
    StepLogs(p, owner, ts[|ts| - 1], |ts| - 1, cfg);
  }

  lemma LastFindsFirst(w: World, owner: Owner, ts: seq<Template>, cfg: Config, t: Template)
    requires ts != [] && DistinctKeys(ts) && t == ts[|ts| - 1]
    ensures Lookup(RunTemplates(w, owner, ts[..|ts| - 1], cfg).world.objects, t.key) == Lookup(w.objects, t.key)
  {
    LastKeyIsNew(ts);
    TemplatesFrame(w, owner, ts[..|ts| - 1], cfg, t.key);
  }

  /** A loop that succeeds without a write decided to write nothing for every template. */
  lemma {:induction false} NoWriteMeansKeep(w: World, owner: Owner, ts: seq<Template>, cfg: Config, i: nat, t: Template)
    requires DistinctKeys(ts) && RunTemplates(w, owner, ts, cfg).ok && i < |ts| && t == ts[i]
    requires |RunTemplates(w, owner, ts, cfg).world.log| == |w.log|
    ensures Decide(Lookup(w.objects, t.key), owner, t) == Do(Keep, t.enabled)
    decreases |ts|
  {
    LastKept(w, owner, ts, cfg);
    if i < |ts| - 1 {
      NoWriteMeansKeep(w, owner, ts[..|ts| - 1], cfg, i, t);
    } else {
      LastFindsFirst(w, owner, ts, cfg, t);
    }
  }

  lemma NoisyRun(w: World, owner: Owner, ts: seq<Template>, cfg: Config, w': World, out: Outcome, i: nat)
    requires Ran(w, owner, ts, cfg, w', out) && DistinctKeys(ts) && i < |ts|
    requires Decide(Lookup(w.objects, ts[i].key), owner, ts[i]) != Do(Keep, ts[i].enabled)
    ensures out == Error || |w'.log| > |w.log|
  {
    var p := RunTemplates(w, owner, ts, cfg);
    LogGrows(w, owner, ts, cfg);
    if p.ok && |p.world.log| == |w.log| { NoWriteMeansKeep(w, owner, ts, cfg, i, ts[i]); }
  }

  lemma NothingLeftToPrune(w: World, w1: World, owner: Owner, m1: seq<ObjectKey>, m2: seq<ObjectKey>, w2: World)
    requires PrunedTo(w, w1, Orphans(w, owner, m1))
    requires forall k :: k in m1 <==> k in m2
    ensures Orphans(w1, owner, m2) == {}
    ensures PrunedTo(w1, w2, {}) ==> w2 == w1
  {
    forall k | k in w1.objects ensures !IsOrphan(w1, owner, m2, k) {
      LookupAfterDeletes(w.objects, Orphans(w, owner, m1), k);
      DeletedIsGoneOrMarked(w.objects[k]);
    }
    assert DeleteAll(w1.objects, {}) == w1.objects;
  }

  /** The template has nothing left to do: its object needs no write or stays absent, and its type is tracked. */
  ghost predicate QuietTemplate(w: World, owner: Owner, t: Template) {
    && Decide(Lookup(w.objects, t.key), owner, t) == Do(Keep, t.enabled)
    && (t.enabled ==> t.key.gvk in w.tracked)
  }

  lemma {:induction false} QuietTemplates(w: World, owner: Owner, ts: seq<Template>, cfg: Config)
    requires cfg.faults == {} && forall i :: 0 <= i < |ts| ==> QuietTemplate(w, owner, ts[i])
    ensures var p := RunTemplates(w, owner, ts, cfg); p.ok && p.world == w && !p.requeue
    decreases |ts|
  {
    if ts != [] {
      var front, t := ts[..|ts| - 1], ts[|ts| - 1];
      forall i | 0 <= i < |front| ensures QuietTemplate(w, owner, front[i]) { assert front[i] == ts[i]; }
      QuietTemplates(w, owner, front, cfg);
      assert QuietTemplate(w, owner, t);
      QuietStep(RunTemplates(w, owner, front, cfg), owner, t, |front|, cfg);
    }
  }

  lemma QuietStep(p: Progress, owner: Owner, t: Template, i: nat, cfg: Config)
    requires cfg.faults == {} && p.ok && QuietTemplate(p.world, owner, t)
    ensures var q := RunTemplate(p, owner, t, i, cfg); q.ok && q.world == p.world && q.requeue == p.requeue
  {
    var w := p.world;
    assert Store(w.objects, t.key, Lookup(w.objects, t.key)) == w.objects;
    assert w.log + [] == w.log;
  }

  // ----- histories -----

  datatype Event =
    | Reconcile(owner: Owner, ts: seq<Template>, cfg: Config, out: Outcome)
    | Environment   // users, other controllers, the garbage collector: any change of the objects

  ghost predicate Step(w: World, e: Event, w': World) {
    match e
    case Reconcile(owner, ts, cfg, out) => Ran(w, owner, ts, cfg, w', out)
    case Environment => w'.tracked == w.tracked && w'.watched == w.watched
  }

  ghost predicate History(ws: seq<World>, es: seq<Event>) {
    && |ws| == |es| + 1
    && (forall n :: 0 <= n < |es| ==> Step(ws[n], es[n], ws[n + 1]))
    && forall n :: 0 <= n < |es| && es[n].Reconcile? ==> es[n].cfg.dynamicWatches
  }

  /** Over every history of one process, failing runs included. */
  lemma {:induction false} TrackerOverHistories(ws: seq<World>, es: seq<Event>, i: nat, j: nat)
    requires History(ws, es) && TrackerInv(ws[0]) && i <= j < |ws|
    ensures TrackerInv(ws[j]) && ws[i].tracked <= ws[j].tracked
    decreases j
  {
    if j > 0 {
      TrackerOverHistories(ws, es, if i == j then 0 else i, j - 1);
      assert Step(ws[j - 1], es[j - 1], ws[j]);
      if es[j - 1].Reconcile? {
        RunKeepsTracker(ws[j - 1], es[j - 1].owner, es[j - 1].ts, es[j - 1].cfg, ws[j], es[j - 1].out);
      }
    }
  }

  lemma LoopTracks(w: World, owner: Owner, ts: seq<Template>, cfg: Config)
    requires ts != []
    ensures RunTemplates(w, owner, ts[..|ts| - 1], cfg).world.tracked <= RunTemplates(w, owner, ts, cfg).world.tracked
  {
    var p := RunTemplates(w, owner, ts[..|ts| - 1], cfg);
    if p.ok { StepGrows(p, owner, ts[|ts| - 1], |ts| - 1, cfg); }
  }

  lemma {:induction false} PrefixTracked(w: World, owner: Owner, ts: seq<Template>, cfg: Config, n: nat)
    requires n <= |ts|
    ensures RunTemplates(w, owner, ts[..n], cfg).world.tracked <= RunTemplates(w, owner, ts, cfg).world.tracked
    decreases |ts|
  {
    if n == |ts| {
      assert ts[..n] == ts;
    } else {
      var front := ts[..|ts| - 1];
      assert front[..n] == ts[..n];
      PrefixTracked(w, owner, front, cfg, n);
      LoopTracks(w, owner, ts, cfg);
    }
  }

  lemma StepGrows(p: Progress, owner: Owner, t: Template, i: nat, cfg: Config)
    requires p.ok
    ensures p.world.tracked <= RunTemplate(p, owner, t, i, cfg).world.tracked
  {
    PlanManages(Lookup(p.world.objects, t.key), owner, t);
    Executed(p, Decide(Lookup(p.world.objects, t.key), owner, t), t.key, i, cfg);
  }

  /** A run that got past an enabled template, whatever happened afterwards, has its type tracked. */
  lemma PassedIsTracked(w: World, owner: Owner, ts: seq<Template>, cfg: Config, w': World, out: Outcome, i: nat)
    requires Ran(w, owner, ts, cfg, w', out)
    requires i < |ts| && ts[i].enabled && RunTemplates(w, owner, ts[..i + 1], cfg).ok
    ensures ts[i].key.gvk in w'.tracked
  {
    var k := ts[i].key;
    assert ts[..i + 1][i] == ts[i];
    assert Enabled(ts[..i + 1], k);
    TemplatesManage(w, owner, ts[..i + 1], cfg, k);
    PrefixTracked(w, owner, ts, cfg, i + 1);
  }

  lemma PassedStaysTracked(ws: seq<World>, es: seq<Event>, m: nat, i: nat, n: nat)
    requires History(ws, es) && TrackerInv(ws[0]) && m < n <= |es|
    requires es[m].Reconcile? && i < |es[m].ts| && es[m].ts[i].enabled
    requires RunTemplates(ws[m], es[m].owner, es[m].ts[..i + 1], es[m].cfg).ok
    ensures es[m].ts[i].key.gvk in ws[n].tracked
  {
    assert Step(ws[m], es[m], ws[m + 1]);
    PassedIsTracked(ws[m], es[m].owner, es[m].ts, es[m].cfg, ws[m + 1], es[m].out, i);
    TrackerOverHistories(ws, es, m + 1, n);
  }

  /** No orphans: once some run got past an enabled template for a key, even if it failed later, any later run
      of the process that does not fail, with the pruner on and no enabled template for the key, leaves no live
      owned object there, even if no template of that type is left and whatever happened in between. */
  lemma NoOrphans(ws: seq<World>, es: seq<Event>, m: nat, i: nat, n: nat, k: ObjectKey)
    requires History(ws, es) && TrackerInv(ws[0]) && m < n < |es|
    requires es[m].Reconcile? && i < |es[m].ts| && es[m].ts[i].enabled && es[m].ts[i].key == k
    requires RunTemplates(ws[m], es[m].owner, es[m].ts[..i + 1], es[m].cfg).ok
    requires es[n].Reconcile? && es[n].out != Error && PrunerEnabled(es[n].owner, es[n].cfg)
    requires !Enabled(es[n].ts, k)
    ensures !LiveOf(ws[n + 1].objects, es[n].owner, k)
  {
    assert Step(ws[n], es[n], ws[n + 1]);
    PassedStaysTracked(ws, es, m, i, n);
    TrackerOverHistories(ws, es, 0, n);
    UnnamedIsPruned(ws[n], es[n].owner, es[n].ts, es[n].cfg, ws[n + 1], es[n].out, k);
  }

  lemma UnnamedIsPruned(w: World, owner: Owner, ts: seq<Template>, cfg: Config, w': World, out: Outcome, k: ObjectKey)
    requires Ran(w, owner, ts, cfg, w', out) && out != Error && PrunerEnabled(owner, cfg)
    requires TrackerInv(w) && cfg.dynamicWatches && k.gvk in w.tracked && !Enabled(ts, k)
    ensures !LiveOf(w'.objects, owner, k)
  {
    var p := RunTemplates(w, owner, ts, cfg);
    TemplatesTrack(w, owner, ts, cfg);
    TemplatesManage(w, owner, ts, cfg, k);
    LookupAfterDeletes(p.world.objects, Orphans(p.world, owner, p.managed), k);
    OrphanMeaning(p.world, owner, p.managed, k);
    if k in p.world.objects { DeletedIsGoneOrMarked(p.world.objects[k]); }
  }

  /** Exactly when an orphan survives: after a pruning run that did not fail, a live owned object without an
      enabled template is as it was if and only if no template names it and its type is neither tracked before the
      run nor that of an enabled template; otherwise it is gone or marked. */
  lemma SurvivesIffUntracked(w: World, owner: Owner, ts: seq<Template>, cfg: Config, w': World, out: Outcome,
                             k: ObjectKey)
    requires Ran(w, owner, ts, cfg, w', out) && out != Error && PrunerEnabled(owner, cfg) && DistinctKeys(ts)
    requires LiveOf(w.objects, owner, k)
    requires !Enabled(ts, k)
    ensures Lookup(w'.objects, k) == Lookup(w.objects, k) <==>
              !Names(ts, k) && k.gvk !in w.tracked && !EnabledType(ts, k.gvk)
    ensures Lookup(w'.objects, k) == Lookup(w.objects, k) || Lookup(w'.objects, k) == Deleted(w.objects[k])
  {
    DeletedIsGoneOrMarked(w.objects[k]);
    if Names(ts, k) {
      NamedIsDeleted(w, owner, ts, cfg, w', out, k);
    } else {
      UnnamedIsPrunedIffTracked(w, owner, ts, cfg, w', out, k);
      SuccessfulRunTracks(w, owner, ts, cfg, w', out, k.gvk);
    }
  }

  lemma NamedIsDeleted(w: World, owner: Owner, ts: seq<Template>, cfg: Config, w': World, out: Outcome, k: ObjectKey)
    requires Ran(w, owner, ts, cfg, w', out) && out != Error && DistinctKeys(ts)
    requires k in w.objects && Names(ts, k) && !Enabled(ts, k)
    ensures Lookup(w'.objects, k) == Deleted(w.objects[k])
  {
    var i :| 0 <= i < |ts| && ts[i].key == k;
    TemplateObject(w, owner, ts, cfg, w', out, i);
    DisabledDeletes(w.objects[k], owner, ts[i]);
  }

  lemma DisabledDeletes(live: Doc, owner: Owner, t: Template)
    requires !t.enabled && Decide(Some(live), owner, t).Do?
    ensures After(Some(live), Decide(Some(live), owner, t).change) == Deleted(live)
  {
  }

  lemma UnnamedIsPrunedIffTracked(w: World, owner: Owner, ts: seq<Template>, cfg: Config, w': World, out: Outcome,
                                  k: ObjectKey)
    requires Ran(w, owner, ts, cfg, w', out) && out != Error && PrunerEnabled(owner, cfg)
    requires LiveOf(w.objects, owner, k)
    requires !Names(ts, k)
    ensures Lookup(w'.objects, k) == if k.gvk in w'.tracked then Deleted(w.objects[k]) else Some(w.objects[k])
  {
    var p := RunTemplates(w, owner, ts, cfg);
    TemplatesManage(w, owner, ts, cfg, k);
    TemplatesFrame(w, owner, ts, cfg, k);
    PrunedIffTracked(p.world, owner, p.managed, w', k);
  }

  lemma PrunedIffTracked(w: World, owner: Owner, managed: seq<ObjectKey>, w': World, k: ObjectKey)
    requires PrunedTo(w, w', Orphans(w, owner, managed))
    requires LiveOf(w.objects, owner, k)
    requires k !in managed
    ensures Lookup(w'.objects, k) == if k.gvk in w'.tracked then Deleted(w.objects[k]) else Some(w.objects[k])
  {
    OrphanMeaning(w, owner, managed, k);
    LookupAfterDeletes(w.objects, Orphans(w, owner, managed), k);
  }

  /** So the plain claim "an object that a template created is pruned once the template is gone" is false: when
      the watch of a new type fails after the create, and the template is then dropped, the object stays. */
  lemma FailedWatchLeavesOrphan(w: World, owner: Owner, t: Template, cfg: Config, w1: World, out1: Outcome,
                                cfg2: Config, w2: World, out2: Outcome)
    requires t.enabled && t.key !in w.objects && t.key.gvk !in w.tracked && Decide(None, owner, t).Do?
    requires cfg.dynamicWatches && cfg.faults == {WatchAt(0)} && Ran(w, owner, [t], cfg, w1, out1)
    requires cfg2.faults == {} && PrunerEnabled(owner, cfg2) && Ran(w1, owner, [], cfg2, w2, out2)
    ensures out1 == Error && out2 == Continue
    ensures Decide(None, owner, t).change.Create?
    ensures Lookup(w2.objects, t.key) == Lookup(w1.objects, t.key) == Some(Decide(None, owner, t).change.doc)
  {
    CreateThenWatchFails(w, owner, t, cfg, Progress(w, [], false, true));
    LookupAfterDeletes(w1.objects, Orphans(w1, owner, []), t.key);
  }

  lemma CreateThenWatchFails(w: World, owner: Owner, t: Template, cfg: Config, start: Progress)
    requires t.enabled && t.key !in w.objects && t.key.gvk !in w.tracked && Decide(None, owner, t).Do?
    requires cfg.dynamicWatches && cfg.faults == {WatchAt(0)} && start == Progress(w, [], false, true)
    ensures Decide(None, owner, t).change.Create?
    ensures var p := RunTemplates(w, owner, [t], cfg);
            && !p.ok && p.world.tracked == w.tracked
            && Lookup(p.world.objects, t.key) == Some(Decide(None, owner, t).change.doc)
  {
    assert [t][..0] == [];
    assert RunTemplates(w, owner, [t][..0], cfg) == start;
    assert RunTemplates(w, owner, [t], cfg) == RunTemplate(start, owner, t, 0, cfg);
  }
}
