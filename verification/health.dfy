/** Health of workloads and its aggregation into the status of the custom resource. */
module Health {
  import opened JsonTree

  type Int32 = x: int | -0x8000_0000 <= x < 0x8000_0000

  /** 32-bit subtraction. */
  function Sub32(a: Int32, b: Int32): Int32 {
    var d := a - b;
    if d < -0x8000_0000 then d + 0x1_0000_0000 else if d >= 0x8000_0000 then d - 0x1_0000_0000 else d
  }

  /** Subtraction up to a multiple of 2^32, and the plain difference where that is in range. */
  lemma Sub32Wraps(a: Int32, b: Int32)
    ensures (Sub32(a, b) - (a - b)) % 0x1_0000_0000 == 0
    ensures -0x8000_0000 <= a - b < 0x8000_0000 ==> Sub32(a, b) == a - b
  {
  }

  // ----- codes -----

  const HEALTHY := "Healthy"
  const SUSPENDED := "Suspended"
  const PROGRESSING := "Progressing"
  const MISSING := "Missing"
  const DEGRADED := "Degraded"
  const UNKNOWN := "Unknown"

  /** From most healthy to least healthy. */
  const HEALTH_ORDER: seq<string> := [HEALTHY, SUSPENDED, PROGRESSING, MISSING, DEGRADED, UNKNOWN]

  /** Position in the order; a code that is not listed counts as the healthiest. */
  function RankIn(order: seq<string>, code: string): nat {
    if order == [] then 0
    else if order[|order| - 1] == code then |order| - 1
    else RankIn(order[..|order| - 1], code)
  }

  function Rank(code: string): nat {
    RankIn(HEALTH_ORDER, code)
  }

  lemma RankIsPosition(i: nat)
    requires i < |HEALTH_ORDER|
    ensures Rank(HEALTH_ORDER[i]) == i
  {
    var o := HEALTH_ORDER;
    DistinctCodes();
    assert o[..5][..4] == o[..4] && o[..4][..3] == o[..3] && o[..3][..2] == o[..2] && o[..2][..1] == o[..1];
    if i == 5 {
    } else if i == 4 {
      assert RankIn(o, o[4]) == RankIn(o[..5], o[4]);
    } else if i == 3 {
      assert RankIn(o, o[3]) == RankIn(o[..5], o[3]) == RankIn(o[..4], o[3]);
    } else if i == 2 {
      assert RankIn(o, o[2]) == RankIn(o[..5], o[2]) == RankIn(o[..4], o[2]) == RankIn(o[..3], o[2]);
    } else if i == 1 {
      assert RankIn(o, o[1]) == RankIn(o[..5], o[1]) == RankIn(o[..4], o[1]) == RankIn(o[..3], o[1])
          == RankIn(o[..2], o[1]);
    } else {
      assert RankIn(o, o[0]) == RankIn(o[..5], o[0]) == RankIn(o[..4], o[0]) == RankIn(o[..3], o[0])
          == RankIn(o[..2], o[0]) == RankIn(o[..1], o[0]);
    }
  }

  lemma DistinctCodes()
    ensures forall i, j :: 0 <= i < j < |HEALTH_ORDER| ==> HEALTH_ORDER[i] != HEALTH_ORDER[j]
  {
  }

  /** The order of the codes, by name; any other code counts as healthy. */
  lemma RankOfCode(code: string)
    ensures Rank("Healthy") == 0 && Rank("Suspended") == 1 && Rank("Progressing") == 2
    ensures Rank("Missing") == 3 && Rank("Degraded") == 4 && Rank("Unknown") == 5
    ensures code !in ["Healthy", "Suspended", "Progressing", "Missing", "Degraded", "Unknown"] ==> Rank(code) == 0
  {
    RankIsPosition(0);
    RankIsPosition(1);
    RankIsPosition(2);
    RankIsPosition(3);
    RankIsPosition(4);
    RankIsPosition(5);
    if code !in HEALTH_ORDER { RankUnlisted(HEALTH_ORDER, code); }
  }

  lemma {:induction false} RankUnlisted(order: seq<string>, code: string)
    requires code !in order
    ensures RankIn(order, code) == 0
    decreases |order|
  {
    if order != [] { RankUnlisted(order[..|order| - 1], code); }
  }

  method HealthIsWorse(current: string, candidate: string) returns (worse: bool)
    ensures worse <==> Rank(candidate) > Rank(current)
  {
    var currentIndex, newIndex: nat := 0, 0;
    for i := 0 to |HEALTH_ORDER|
      invariant currentIndex == RankIn(HEALTH_ORDER[..i], current)
      invariant newIndex == RankIn(HEALTH_ORDER[..i], candidate)
    {
      assert HEALTH_ORDER[..i + 1][..i] == HEALTH_ORDER[..i];
      if current == HEALTH_ORDER[i] {
        currentIndex := i;
      }
      if candidate == HEALTH_ORDER[i] {
        newIndex := i;
      }
    }
    assert HEALTH_ORDER[..|HEALTH_ORDER|] == HEALTH_ORDER;
    worse := newIndex > currentIndex;
  }

  // ----- workloads -----

  /** The message, with the numbers and names it is formatted from. */
  datatype Message =
    | NoMessage
    | DeploymentPaused
    | DeadlineExceeded(name: string)
    | ReplicasUpdated(updated: Int32, wanted: Int32)
    | OldReplicasPending(count: Int32)
    | ReplicasAvailable(available: Int32, updated: Int32)
    | GenerationBehind
    | SpecNotObserved
    | PodsNotReady(count: Int32)
    | PartitionProgress(updated: Int32, wanted: Int32)
    | PartitionComplete(updated: Int32)
    | PodsReady(count: Int32)
    | RevisionProgress(updated: Int32, revision: string)
    | RevisionComplete(current: Int32, revision: string)

  datatype HealthStatus = HealthStatus(code: string, message: Message)

  datatype Condition = Condition(kind: string, reason: string)

  datatype DeploymentStatus = DeploymentStatus(
    observedGeneration: int, replicas: Int32, updated: Int32, available: Int32, conditions: seq<Condition>)

  datatype Deployment = Deployment(
    name: string, generation: int, paused: bool, replicas: Option<Int32>, status: DeploymentStatus)

  datatype Strategy = RollingUpdate(partition: Option<Int32>) | RollingUpdateNoParams | OnDelete | OtherStrategy

  datatype StatefulSetStatus = StatefulSetStatus(
    observedGeneration: int, ready: Int32, updated: Int32, current: Int32,
    updateRevision: string, currentRevision: string)

  datatype StatefulSet = StatefulSet(
    generation: int, replicas: Option<Int32>, strategy: Strategy, status: StatefulSetStatus)

  function FindCondition(conditions: seq<Condition>, kind: string): Option<Condition> {
    if conditions == [] then None
    else if conditions[0].kind == kind then Some(conditions[0])
    else FindCondition(conditions[1..], kind)
  }

  /** Position i holds the first condition of the given type. */
  predicate IsFirst(conditions: seq<Condition>, i: nat, kind: string)
    requires i < |conditions|
  {
    conditions[i].kind == kind && forall j :: 0 <= j < i ==> conditions[j].kind != kind
  }

  /** The first condition of the given type. */
  method GetDeploymentCondition(status: DeploymentStatus, kind: string) returns (r: Option<Condition>)
    ensures r == FindCondition(status.conditions, kind)
    ensures r.None? <==> forall c :: c in status.conditions ==> c.kind != kind
    ensures r.Some? ==> exists i :: 0 <= i < |status.conditions| && status.conditions[i] == r.value
                                    && IsFirst(status.conditions, i, kind)
  {
    for i := 0 to |status.conditions|
      invariant FindCondition(status.conditions, kind) == FindCondition(status.conditions[i..], kind)
      invariant forall j :: 0 <= j < i ==> status.conditions[j].kind != kind
    {
      assert status.conditions[i..][1..] == status.conditions[i + 1..];
      if status.conditions[i].kind == kind {
        assert IsFirst(status.conditions, i, kind);
        return Some(status.conditions[i]);
      }
    }
    return None;
  }

  predicate DeadlineHit(d: Deployment) {
    var c := FindCondition(d.status.conditions, "Progressing");
    c.Some? && c.value.reason == "ProgressDeadlineExceeded"
  }

  /** The first condition of type Progressing says that the deadline is exceeded. */
  predicate DeadlineExceededBy(conditions: seq<Condition>) {
    exists i :: 0 <= i < |conditions| && IsFirst(conditions, i, "Progressing")
                && conditions[i].reason == "ProgressDeadlineExceeded"
  }

  lemma {:induction false} DeadlineHitMeaning(conditions: seq<Condition>)
    ensures var c := FindCondition(conditions, "Progressing");
            c.Some? && c.value.reason == "ProgressDeadlineExceeded" <==> DeadlineExceededBy(conditions)
    decreases |conditions|
  {
    if conditions != [] {
      var rest := conditions[1..];
      DeadlineHitMeaning(rest);
      if conditions[0].kind == "Progressing" {
        assert IsFirst(conditions, 0, "Progressing");
      } else {
        forall i | 0 <= i < |rest|
          ensures IsFirst(rest, i, "Progressing") <==> IsFirst(conditions, i + 1, "Progressing")
        {
          assert conditions[i + 1] == rest[i];
          forall j | 0 < j < i + 1 ensures conditions[j] == rest[j - 1] {}
          forall j | 0 <= j < i ensures rest[j] == conditions[j + 1] {}
        }
      }
    }
  }

  function DeploymentHealth(d: Deployment): HealthStatus {
    var s := d.status;
    if d.paused then HealthStatus(SUSPENDED, DeploymentPaused)
    else if d.generation <= s.observedGeneration then
      if DeadlineHit(d) then HealthStatus(DEGRADED, DeadlineExceeded(d.name))
      else if d.replicas.Some? && s.updated < d.replicas.value then
        HealthStatus(PROGRESSING, ReplicasUpdated(s.updated, d.replicas.value))
      else if s.replicas > s.updated then HealthStatus(PROGRESSING, OldReplicasPending(Sub32(s.replicas, s.updated)))
      else if s.available < s.updated then HealthStatus(PROGRESSING, ReplicasAvailable(s.available, s.updated))
      else HealthStatus(HEALTHY, NoMessage)
    else HealthStatus(PROGRESSING, GenerationBehind)
  }

  /** The checks in the program's order, the condition found by the loop. */
  method GetDeploymentHealth(d: Deployment) returns (h: HealthStatus)
    ensures h == DeploymentHealth(d)
  {
    if d.paused {
      return HealthStatus(SUSPENDED, DeploymentPaused);
    }
    if d.generation > d.status.observedGeneration {
      return HealthStatus(PROGRESSING, GenerationBehind);
    }
    var s := d.status;
    var cond := GetDeploymentCondition(s, "Progressing");
    if cond.Some? && cond.value.reason == "ProgressDeadlineExceeded" {
      return HealthStatus(DEGRADED, DeadlineExceeded(d.name));
    }
    if d.replicas.Some? && s.updated < d.replicas.value {
      return HealthStatus(PROGRESSING, ReplicasUpdated(s.updated, d.replicas.value));
    }
    if s.replicas > s.updated {
      return HealthStatus(PROGRESSING, OldReplicasPending(Sub32(s.replicas, s.updated)));
    }
    if s.available < s.updated {
      return HealthStatus(PROGRESSING, ReplicasAvailable(s.available, s.updated));
    }
    return HealthStatus(HEALTHY, NoMessage);
  }

  function StatefulSetHealth(x: StatefulSet): HealthStatus {
    var s := x.status;
    if s.observedGeneration == 0 || x.generation > s.observedGeneration then HealthStatus(PROGRESSING, SpecNotObserved)
    else if x.replicas.Some? && s.ready < x.replicas.value then
      HealthStatus(PROGRESSING, PodsNotReady(Sub32(x.replicas.value, s.ready)))
    else if x.strategy.RollingUpdate? then
      if x.replicas.Some? && x.strategy.partition.Some?
         && s.updated < Sub32(x.replicas.value, x.strategy.partition.value) then
        HealthStatus(PROGRESSING, PartitionProgress(s.updated, Sub32(x.replicas.value, x.strategy.partition.value)))
      else HealthStatus(HEALTHY, PartitionComplete(s.updated))
    else if x.strategy.OnDelete? then HealthStatus(HEALTHY, PodsReady(s.ready))
    else if s.updateRevision != s.currentRevision then
      HealthStatus(PROGRESSING, RevisionProgress(s.updated, s.updateRevision))
    else HealthStatus(HEALTHY, RevisionComplete(s.current, s.currentRevision))
  }

  /** Unpaused, observed, fully updated, no old replicas, all updated replicas available, deadline not exceeded. */
  predicate DeploymentRolledOut(d: Deployment) {
    && !d.paused
    && d.status.observedGeneration >= d.generation
    && !DeadlineExceededBy(d.status.conditions)
    && (d.replicas.Some? ==> d.status.updated >= d.replicas.value)
    && d.status.replicas <= d.status.updated <= d.status.available
  }

  /** Observed, ready, and past its own strategy's rollout check. */
  predicate StatefulSetRolledOut(x: StatefulSet) {
    && x.status.observedGeneration != 0 && x.status.observedGeneration >= x.generation
    && (x.replicas.Some? ==> x.status.ready >= x.replicas.value)
    && (match x.strategy
        case RollingUpdate(p) =>
          x.replicas.Some? && p.Some? ==> x.status.updated >= Sub32(x.replicas.value, p.value)
        case OnDelete => true
        case _ => x.status.updateRevision == x.status.currentRevision)
  }

  /** Observed, not paused, and past its progress deadline. */
  predicate DeploymentFailed(d: Deployment) {
    !d.paused && d.status.observedGeneration >= d.generation && DeadlineExceededBy(d.status.conditions)
  }

  /** Which code a deployment gets, as exclusive conditions instead of an order of checks. */
  lemma DeploymentCodeMeaning(d: Deployment)
    ensures var code := DeploymentHealth(d).code;
            && (code == "Suspended" <==> d.paused)
            && (code == "Degraded" <==> DeploymentFailed(d))
            && (code == "Healthy" <==> DeploymentRolledOut(d))
            && (code == "Progressing" <==> !d.paused && !DeploymentFailed(d) && !DeploymentRolledOut(d))
  {
    DeadlineHitMeaning(d.status.conditions);
  }

  /** The message, and the numbers in it. */
  lemma DeploymentMessageMeaning(d: Deployment)
    ensures var m, s := DeploymentHealth(d).message, d.status;
            var checked := !d.paused && s.observedGeneration >= d.generation && !DeadlineExceededBy(s.conditions);
            var behind := d.replicas.Some? && s.updated < d.replicas.value;
            && (m == DeploymentPaused <==> d.paused)
            && (m == GenerationBehind <==> !d.paused && s.observedGeneration < d.generation)
            && (m == DeadlineExceeded(d.name) <==> DeploymentFailed(d))
            && (checked && behind <==> d.replicas.Some? && m == ReplicasUpdated(s.updated, d.replicas.value))
            && (checked && !behind && s.updated < s.replicas <==> m == OldReplicasPending(Sub32(s.replicas, s.updated)))
            && (checked && !behind && s.available < s.updated && s.replicas <= s.updated <==>
                m == ReplicasAvailable(s.available, s.updated))
            && (m == NoMessage <==> DeploymentRolledOut(d))
  {
    DeadlineHitMeaning(d.status.conditions);
  }

  /** A statefulset is Healthy or Progressing, and Healthy exactly when it is rolled out. */
  lemma StatefulSetCodeMeaning(x: StatefulSet)
    ensures var code := StatefulSetHealth(x).code;
            && (code == "Healthy" <==> StatefulSetRolledOut(x))
            && (code == "Progressing" <==> !StatefulSetRolledOut(x))
  {
  }

  lemma StatefulSetMessageMeaning(x: StatefulSet)
    ensures var m, s := StatefulSetHealth(x).message, x.status;
            var observed := s.observedGeneration != 0 && s.observedGeneration >= x.generation;
            var ready := observed && (x.replicas.Some? ==> s.ready >= x.replicas.value);
            var byRevision := ready && !x.strategy.RollingUpdate? && !x.strategy.OnDelete?;
            && (m == SpecNotObserved <==> !observed)
            && (observed && !ready <==> x.replicas.Some? && m == PodsNotReady(Sub32(x.replicas.value, s.ready)))
            && (ready && x.strategy.RollingUpdate? && StatefulSetRolledOut(x) <==> m == PartitionComplete(s.updated))
            && (m.PartitionProgress? <==> ready && x.strategy.RollingUpdate? && !StatefulSetRolledOut(x))
            && (m.PartitionProgress? ==>
                  && x.replicas.Some? && x.strategy.partition.Some?
                  && m == PartitionProgress(s.updated, Sub32(x.replicas.value, x.strategy.partition.value)))
            && (ready && x.strategy.OnDelete? <==> m == PodsReady(s.ready))
            && (byRevision && s.updateRevision != s.currentRevision <==>
                m == RevisionProgress(s.updated, s.updateRevision))
            && (byRevision && s.updateRevision == s.currentRevision <==>
                m == RevisionComplete(s.current, s.currentRevision))
  {
  }

  // ----- recording and aggregating -----

  datatype Tier = PlainStatus | WithHealth | WithAggregatedHealth

  datatype StatusValue = StatusValue(
    deployments: map<string, DeploymentStatus>,
    statefulsets: map<string, StatefulSetStatus>,
    health: map<string, HealthStatus>,
    aggregated: string)

  datatype Workloads = Workloads(deployments: map<string, Deployment>, statefulsets: map<string, StatefulSet>)

  function Worse(current: string, candidate: string): string {
    if Rank(candidate) > Rank(current) then candidate else current
  }

  function SetHealth(v: StatusValue, tier: Tier, key: string, h: HealthStatus): StatusValue {
    if tier.PlainStatus? then v
    else v.(health := v.health[key := h],
            aggregated := if tier.WithAggregatedHealth? then Worse(v.aggregated, h.code) else v.aggregated)
  }

  /** The loop over deployments; it stops at the first one that cannot be read. */
  function RecordDeployments(v: StatusValue, tier: Tier, keys: seq<string>, w: Workloads): (StatusValue, bool) {
    if keys == [] then (v, true)
    else
      var (u, ok) := RecordDeployments(v, tier, keys[..|keys| - 1], w);
      var key := keys[|keys| - 1];
      if !ok || key !in w.deployments then (u, false)
      else (SetHealth(u.(deployments := u.deployments[key := w.deployments[key].status]), tier, key,
                      DeploymentHealth(w.deployments[key])), true)
  }

  function RecordStatefulSets(v: StatusValue, tier: Tier, keys: seq<string>, w: Workloads): (StatusValue, bool) {
    if keys == [] then (v, true)
    else
      var (u, ok) := RecordStatefulSets(v, tier, keys[..|keys| - 1], w);
      var key := keys[|keys| - 1];
      if !ok || key !in w.statefulsets then (u, false)
      else (SetHealth(u.(statefulsets := u.statefulsets[key := w.statefulsets[key].status]), tier, key,
                      StatefulSetHealth(w.statefulsets[key])), true)
  }

  function Recorded(v: StatusValue, tier: Tier, deployments: seq<string>, statefulsets: seq<string>, w: Workloads)
    : (StatusValue, bool)
  {
    var start := if tier.WithAggregatedHealth? then v.(aggregated := HEALTHY) else v;
    var (u, ok) := RecordDeployments(start, tier, deployments, w);
    if ok then RecordStatefulSets(u, tier, statefulsets, w) else (u, false)
  }

  class AppStatus {
    const tier: Tier
    var value: StatusValue

    constructor (tier: Tier, value: StatusValue)
      ensures this.tier == tier && this.value == value
    {
      this.tier, this.value := tier, value;
    }

    /** setWorkloadHealth: stores the observed health and lets it worsen the aggregate. */
    method SetWorkloadHealth(key: string, h: HealthStatus)
      requires !tier.PlainStatus?
      modifies this
      ensures value == SetHealth(old(value), tier, key, h)
    {
      value := value.(health := value.health[key := h]);
      if tier.WithAggregatedHealth? {
        var worse := HealthIsWorse(value.aggregated, value.health[key].code);
        if worse {
          value := value.(aggregated := value.health[key].code);
        }
      }
    }

    method RecordAllDeployments(keys: seq<string>, w: Workloads) returns (ok: bool)
      modifies this
      ensures (value, ok) == RecordDeployments(old(value), tier, keys, w)
    {
      for i := 0 to |keys|
        invariant RecordDeployments(old(value), tier, keys[..i], w) == (value, true)
      {
        assert keys[..i + 1][..i] == keys[..i];
        var key := keys[i];
        if key !in w.deployments {
          DeploymentsStuck(old(value), tier, keys, w, i + 1);
          return false;
        }
        value := value.(deployments := value.deployments[key := w.deployments[key].status]);
        if !tier.PlainStatus? {
          var health := GetDeploymentHealth(w.deployments[key]);
          SetWorkloadHealth(key, health);
        }
      }
      assert keys[..|keys|] == keys;
      ok := true;
    }

    method RecordAllStatefulSets(keys: seq<string>, w: Workloads) returns (ok: bool)
      modifies this
      ensures (value, ok) == RecordStatefulSets(old(value), tier, keys, w)
    {
      for i := 0 to |keys|
        invariant RecordStatefulSets(old(value), tier, keys[..i], w) == (value, true)
      {
        assert keys[..i + 1][..i] == keys[..i];
        var key := keys[i];
        if key !in w.statefulsets {
          StatefulSetsStuck(old(value), tier, keys, w, i + 1);
          return false;
        }
        value := value.(statefulsets := value.statefulsets[key := w.statefulsets[key].status]);
        if !tier.PlainStatus? {
          SetWorkloadHealth(key, StatefulSetHealth(w.statefulsets[key]));
        }
      }
      assert keys[..|keys|] == keys;
      ok := true;
    }

    method ReconcileStatus(deployments: seq<string>, statefulsets: seq<string>, w: Workloads) returns (ok: bool)
      modifies this
      ensures (value, ok) == Recorded(old(value), tier, deployments, statefulsets, w)
    {
      if tier.WithAggregatedHealth? {
        value := value.(aggregated := HEALTHY);
      }
      ok := RecordAllDeployments(deployments, w);
      if ok {
        ok := RecordAllStatefulSets(statefulsets, w);
      }
    }
  }

  lemma {:induction false} DeploymentsStuck(v: StatusValue, tier: Tier, keys: seq<string>, w: Workloads, n: nat)
    requires n <= |keys| && !RecordDeployments(v, tier, keys[..n], w).1
    ensures RecordDeployments(v, tier, keys, w) == RecordDeployments(v, tier, keys[..n], w)
    decreases |keys|
  {
    if n < |keys| {
      var front := keys[..|keys| - 1];
      assert front[..n] == keys[..n];
      DeploymentsStuck(v, tier, front, w, n);
    } else {
      assert keys[..n] == keys;
    }
  }

  lemma {:induction false} StatefulSetsStuck(v: StatusValue, tier: Tier, keys: seq<string>, w: Workloads, n: nat)
    requires n <= |keys| && !RecordStatefulSets(v, tier, keys[..n], w).1
    ensures RecordStatefulSets(v, tier, keys, w) == RecordStatefulSets(v, tier, keys[..n], w)
    decreases |keys|
  {
    if n < |keys| {
      var front := keys[..|keys| - 1];
      assert front[..n] == keys[..n];
      StatefulSetsStuck(v, tier, front, w, n);
    } else {
      assert keys[..n] == keys;
    }
  }

  // ----- the aggregate is the worst -----

  /** The health codes of all named workloads. */
  function Codes(deployments: seq<string>, statefulsets: seq<string>, w: Workloads): set<string>
    requires forall k :: k in deployments ==> k in w.deployments
    requires forall k :: k in statefulsets ==> k in w.statefulsets
  {
    (set k | k in deployments :: DeploymentHealth(w.deployments[k]).code)
    + (set k | k in statefulsets :: StatefulSetHealth(w.statefulsets[k]).code)
  }

  /** code is among the codes, or HEALTHY if there are none, and no code of the set ranks above it. */
  ghost predicate IsWorst(code: string, codes: set<string>) {
    && (code in codes || (codes == {} && code == HEALTHY))
    && forall c :: c in codes ==> Rank(c) <= Rank(code)
  }

  /** code is start or among the codes, and the worst of them all. */
  ghost predicate WorstSince(start: string, codes: set<string>, code: string) {
    && (code == start || code in codes)
    && Rank(start) <= Rank(code)
    && forall c :: c in codes ==> Rank(c) <= Rank(code)
  }

  function DeploymentCodes(keys: seq<string>, w: Workloads): set<string> {
    set k | k in keys && k in w.deployments :: DeploymentHealth(w.deployments[k]).code
  }

  function StatefulSetCodes(keys: seq<string>, w: Workloads): set<string> {
    set k | k in keys && k in w.statefulsets :: StatefulSetHealth(w.statefulsets[k]).code
  }

  lemma {:induction false} DeploymentsAggregate(v: StatusValue, keys: seq<string>, w: Workloads)
    ensures var (u, ok) := RecordDeployments(v, WithAggregatedHealth, keys, w);
            && (ok <==> forall k :: k in keys ==> k in w.deployments)
            && (ok ==> WorstSince(v.aggregated, DeploymentCodes(keys, w), u.aggregated))
    decreases |keys|
  {
    if keys != [] {
      var front, key := keys[..|keys| - 1], keys[|keys| - 1];
      assert keys == front + [key];
      DeploymentsAggregate(v, front, w);
      if key in w.deployments {
        assert DeploymentCodes(keys, w) == DeploymentCodes(front, w) + {DeploymentHealth(w.deployments[key]).code};
      }
    }
  }

  lemma {:induction false} StatefulSetsAggregate(v: StatusValue, keys: seq<string>, w: Workloads)
    ensures var (u, ok) := RecordStatefulSets(v, WithAggregatedHealth, keys, w);
            && (ok <==> forall k :: k in keys ==> k in w.statefulsets)
            && (ok ==> WorstSince(v.aggregated, StatefulSetCodes(keys, w), u.aggregated))
    decreases |keys|
  {
    if keys != [] {
      var front, key := keys[..|keys| - 1], keys[|keys| - 1];
      assert keys == front + [key];
      StatefulSetsAggregate(v, front, w);
      if key in w.statefulsets {
        assert StatefulSetCodes(keys, w) == StatefulSetCodes(front, w) + {StatefulSetHealth(w.statefulsets[key]).code};
      }
    }
  }

  /** Reconciling the status succeeds exactly when every named workload exists, and then the aggregate is
      the worst of all their codes, whatever was stored before. */
  lemma AggregateIsWorst(v: StatusValue, deployments: seq<string>, statefulsets: seq<string>, w: Workloads)
    ensures var (u, ok) := Recorded(v, WithAggregatedHealth, deployments, statefulsets, w);
            && (ok <==> (forall k :: k in deployments ==> k in w.deployments)
                        && (forall k :: k in statefulsets ==> k in w.statefulsets))
            && (ok ==> IsWorst(u.aggregated, Codes(deployments, statefulsets, w)))
  {
    var start := v.(aggregated := HEALTHY);
    var (middle, ok) := RecordDeployments(start, WithAggregatedHealth, deployments, w);
    DeploymentsAggregate(start, deployments, w);
    StatefulSetsAggregate(middle, statefulsets, w);
    if ok && forall k :: k in statefulsets ==> k in w.statefulsets {
      var (u, _) := RecordStatefulSets(middle, WithAggregatedHealth, statefulsets, w);
      var codes := Codes(deployments, statefulsets, w);
      assert codes == DeploymentCodes(deployments, w) + StatefulSetCodes(statefulsets, w);
      RankIsPosition(0);
      if u.aggregated !in codes && codes != {} {
        var c :| c in codes;
        CodeOfRankZero(deployments, statefulsets, w, c);
      }
    }
  }

  lemma CodesListed(deployments: seq<string>, statefulsets: seq<string>, w: Workloads, c: string)
    requires forall k :: k in deployments ==> k in w.deployments
    requires forall k :: k in statefulsets ==> k in w.statefulsets
    requires c in Codes(deployments, statefulsets, w)
    ensures c in HEALTH_ORDER
  {
  }

  lemma CodeOfRankZero(deployments: seq<string>, statefulsets: seq<string>, w: Workloads, c: string)
    requires forall k :: k in deployments ==> k in w.deployments
    requires forall k :: k in statefulsets ==> k in w.statefulsets
    requires c in Codes(deployments, statefulsets, w) && Rank(c) == 0
    ensures c == HEALTHY
  {
    CodesListed(deployments, statefulsets, w, c);
    var i :| 0 <= i < |HEALTH_ORDER| && HEALTH_ORDER[i] == c;
    RankIsPosition(i);
  }

  /** Whether some named workload has a code. */
  lemma CodeInCodes(deployments: seq<string>, statefulsets: seq<string>, w: Workloads)
    requires forall k :: k in deployments ==> k in w.deployments
    requires forall k :: k in statefulsets ==> k in w.statefulsets
    ensures var codes := Codes(deployments, statefulsets, w);
            && ("Degraded" in codes <==> exists k :: k in deployments && DeploymentFailed(w.deployments[k]))
            && ("Suspended" in codes <==> exists k :: k in deployments && w.deployments[k].paused)
            && ("Progressing" in codes <==>
                || (exists k :: k in deployments && StillRollingOut(w.deployments[k]))
                || (exists k :: k in statefulsets && !StatefulSetRolledOut(w.statefulsets[k])))
            && forall c :: c in codes ==> c in ["Healthy", "Suspended", "Progressing", "Degraded"]
  {
    var codes := Codes(deployments, statefulsets, w);
    forall k | k in deployments
      ensures DeploymentHealth(w.deployments[k]).code in codes
      ensures var code := DeploymentHealth(w.deployments[k]).code;
              && (code == "Degraded" <==> DeploymentFailed(w.deployments[k]))
              && (code == "Suspended" <==> w.deployments[k].paused)
              && (code == "Progressing" <==> StillRollingOut(w.deployments[k]))
    {
      DeploymentCodeMeaning(w.deployments[k]);
    }
    forall k | k in statefulsets
      ensures StatefulSetHealth(w.statefulsets[k]).code in codes
      ensures StatefulSetHealth(w.statefulsets[k]).code in ["Healthy", "Progressing"]
      ensures StatefulSetHealth(w.statefulsets[k]).code == "Progressing" <==> !StatefulSetRolledOut(w.statefulsets[k])
    {
      StatefulSetCodeMeaning(w.statefulsets[k]);
    }
  }

  /** Not paused, not failed, not rolled out. */
  predicate StillRollingOut(d: Deployment) {
    !d.paused && !DeploymentFailed(d) && !DeploymentRolledOut(d)
  }

  /** The aggregate by what the workloads show: a failed deployment hides everything, then a rollout under way,
      then a paused deployment. */
  lemma AggregateByWorkloads(v: StatusValue, deployments: seq<string>, statefulsets: seq<string>, w: Workloads)
    ensures var (u, ok) := Recorded(v, WithAggregatedHealth, deployments, statefulsets, w);
            && (ok <==> (forall k :: k in deployments ==> k in w.deployments)
                        && (forall k :: k in statefulsets ==> k in w.statefulsets))
            && (ok ==>
                  var failed := exists k :: k in deployments && DeploymentFailed(w.deployments[k]);
                  var rolling := || (exists k :: k in deployments && StillRollingOut(w.deployments[k]))
                                 || (exists k :: k in statefulsets && !StatefulSetRolledOut(w.statefulsets[k]));
                  var paused := exists k :: k in deployments && w.deployments[k].paused;
                  u.aggregated == if failed then "Degraded" else if rolling then "Progressing"
                                  else if paused then "Suspended" else "Healthy")
  {
    AggregateIsWorst(v, deployments, statefulsets, w);
    var (u, ok) := Recorded(v, WithAggregatedHealth, deployments, statefulsets, w);
    if ok {
      CodeInCodes(deployments, statefulsets, w);
      RankOfCode(u.aggregated);
      WorstOfFour(u.aggregated, Codes(deployments, statefulsets, w));
    }
  }

  lemma WorstOfFour(code: string, codes: set<string>)
    requires IsWorst(code, codes)
    requires forall c :: c in codes ==> c in ["Healthy", "Suspended", "Progressing", "Degraded"]
    ensures code == if "Degraded" in codes then "Degraded" else if "Progressing" in codes then "Progressing"
                    else if "Suspended" in codes then "Suspended" else "Healthy"
  {
    RankOfCode(code);
  }

  /** The lower tiers leave the aggregate alone. */
  lemma {:induction false} AggregateUntouched(v: StatusValue, tier: Tier, keys: seq<string>, w: Workloads)
    requires !tier.WithAggregatedHealth?
    ensures RecordDeployments(v, tier, keys, w).0.aggregated == v.aggregated
    ensures RecordStatefulSets(v, tier, keys, w).0.aggregated == v.aggregated
    decreases |keys|
  {
    if keys != [] { AggregateUntouched(v, tier, keys[..|keys| - 1], w); }
  }

  /** Reordering or repeating workloads does not change the aggregate. */
  lemma AggregateOrderFree(v: StatusValue, d1: seq<string>, d2: seq<string>, s1: seq<string>, s2: seq<string>,
                           w: Workloads)
    requires forall k :: k in d1 <==> k in d2
    requires forall k :: k in s1 <==> k in s2
    ensures var (u1, ok1) := Recorded(v, WithAggregatedHealth, d1, s1, w);
            var (u2, ok2) := Recorded(v, WithAggregatedHealth, d2, s2, w);
            ok1 == ok2 && (ok1 ==> u1.aggregated == u2.aggregated)
  {
    var (u1, ok1) := Recorded(v, WithAggregatedHealth, d1, s1, w);
    var (u2, ok2) := Recorded(v, WithAggregatedHealth, d2, s2, w);
    AggregateIsWorst(v, d1, s1, w);
    AggregateIsWorst(v, d2, s2, w);
    if ok1 {
      assert Codes(d1, s1, w) == Codes(d2, s2, w);
      if u1.aggregated in Codes(d1, s1, w) {
        CodesListed(d1, s1, w, u1.aggregated);
        CodesListed(d1, s1, w, u2.aggregated);
        var i :| 0 <= i < |HEALTH_ORDER| && HEALTH_ORDER[i] == u1.aggregated;
        var j :| 0 <= j < |HEALTH_ORDER| && HEALTH_ORDER[j] == u2.aggregated;
        RankIsPosition(i);
        RankIsPosition(j);
      }
    }
  }

  /** The aggregate is Healthy exactly when every named deployment and statefulset is rolled out. */
  lemma HealthyMeansRolledOut(v: StatusValue, deployments: seq<string>, statefulsets: seq<string>, w: Workloads)
    ensures var (u, ok) := Recorded(v, WithAggregatedHealth, deployments, statefulsets, w);
            ok ==> (u.aggregated == "Healthy" <==>
                    (forall k :: k in deployments ==> k in w.deployments && DeploymentRolledOut(w.deployments[k]))
                    && (forall k :: k in statefulsets ==>
                          k in w.statefulsets && StatefulSetRolledOut(w.statefulsets[k])))
  {
    AggregateByWorkloads(v, deployments, statefulsets, w);
    forall k | k in deployments && k in w.deployments
      ensures DeploymentRolledOut(w.deployments[k]) <==>
              !DeploymentFailed(w.deployments[k]) && !StillRollingOut(w.deployments[k]) && !w.deployments[k].paused
    {
    }
  }

  /** The statuses and healths recorded: a statefulset overrides a deployment of the same name. */
  lemma {:induction false} DeploymentsRecorded(v: StatusValue, tier: Tier, keys: seq<string>, w: Workloads, k: string)
    requires RecordDeployments(v, tier, keys, w).1
    ensures var u := RecordDeployments(v, tier, keys, w).0;
            && (k in keys ==> k in w.deployments && k in u.deployments && u.deployments[k] == w.deployments[k].status)
            && (k !in keys ==> (k in u.deployments <==> k in v.deployments)
                               && (k in v.deployments ==> u.deployments[k] == v.deployments[k]))
            && (k in keys && !tier.PlainStatus? ==> k in u.health && u.health[k] == DeploymentHealth(w.deployments[k]))
            && (k !in keys || tier.PlainStatus? ==> (k in u.health <==> k in v.health)
                                                    && (k in v.health ==> u.health[k] == v.health[k]))
            && u.statefulsets == v.statefulsets
    decreases |keys|
  {
    if keys != [] {
      assert keys == keys[..|keys| - 1] + [keys[|keys| - 1]];
      DeploymentsRecorded(v, tier, keys[..|keys| - 1], w, k);
    }
  }

  lemma {:induction false} StatefulSetsRecorded(v: StatusValue, tier: Tier, keys: seq<string>, w: Workloads, k: string)
    requires RecordStatefulSets(v, tier, keys, w).1
    ensures var u := RecordStatefulSets(v, tier, keys, w).0;
            && (k in keys ==>
                  k in w.statefulsets && k in u.statefulsets && u.statefulsets[k] == w.statefulsets[k].status)
            && (k !in keys ==> (k in u.statefulsets <==> k in v.statefulsets)
                               && (k in v.statefulsets ==> u.statefulsets[k] == v.statefulsets[k]))
            && (k in keys && !tier.PlainStatus? ==>
                  k in u.health && u.health[k] == StatefulSetHealth(w.statefulsets[k]))
            && (k !in keys || tier.PlainStatus? ==> (k in u.health <==> k in v.health)
                                                    && (k in v.health ==> u.health[k] == v.health[k]))
            && u.deployments == v.deployments
    decreases |keys|
  {
    if keys != [] {
      assert keys == keys[..|keys| - 1] + [keys[|keys| - 1]];
      StatefulSetsRecorded(v, tier, keys[..|keys| - 1], w, k);
    }
  }
}
