/** The mutation that keeps the live values of a Service. */
module ServiceValues {
  import opened JsonTree
  import opened Engine
  import opened MergePatch
  import opened Cluster
  import opened Settling
  import opened Runs

  datatype ServicePort = ServicePort(name: string, port: int, protocol: string, targetPort: Json, nodePort: int)

  /** A Service spec; rest holds the fields this mutation never looks at. */
  datatype ServiceSpec = ServiceSpec(
    kind: string, clusterIP: string, clusterIPs: seq<string>, ports: seq<ServicePort>, rest: map<string, Json>)

  const CLUSTER_IP := "ClusterIP"

  predicate SamePort(p: ServicePort, q: ServicePort) {
    p.port == q.port && p.protocol == q.protocol
  }

  /** Position i is the first with p's number and protocol. */
  predicate IsFirstMatch(p: ServicePort, ports: seq<ServicePort>, i: nat)
    requires i < |ports|
  {
    && ports[i].port == p.port && ports[i].protocol == p.protocol
    && forall j :: 0 <= j < i ==> ports[j].port != p.port || ports[j].protocol != p.protocol
  }

  function FindPort(p: ServicePort, ports: seq<ServicePort>): Option<ServicePort> {
    if ports == [] then None
    else if SamePort(p, ports[0]) then Some(ports[0])
    else FindPort(p, ports[1..])
  }

  /** The first port with p's number and protocol. */
  method FindLivePort(p: ServicePort, ports: seq<ServicePort>) returns (r: Option<ServicePort>)
    ensures r == FindPort(p, ports)
    ensures r.None? <==> forall q :: q in ports ==> q.port != p.port || q.protocol != p.protocol
    ensures r.Some? ==> exists i :: 0 <= i < |ports| && IsFirstMatch(p, ports, i) && ports[i] == r.value
  {
    for i := 0 to |ports|
      invariant FindPort(p, ports) == FindPort(p, ports[i..])
      invariant forall j :: 0 <= j < i ==> ports[j].port != p.port || ports[j].protocol != p.protocol
    {
      assert ports[i..][1..] == ports[i + 1..];
      if SamePort(p, ports[i]) {
        assert IsFirstMatch(p, ports, i);
        return Some(ports[i]);
      }
    }
    return None;
  }

  function WithLiveNodePort(p: ServicePort, live: seq<ServicePort>): ServicePort {
    match FindPort(p, live)
    case None => p
    case Some(q) => p.(nodePort := q.nodePort)
  }

  function WithLiveValues(desired: ServiceSpec, live: ServiceSpec): ServiceSpec {
    var ports := if desired.kind == CLUSTER_IP then desired.ports
                 else seq(|desired.ports|, i requires 0 <= i < |desired.ports| =>
                            WithLiveNodePort(desired.ports[i], live.ports));
    desired.(clusterIP := live.clusterIP, clusterIPs := live.clusterIPs, ports := ports)
  }

  class Service {
    const kind: string
    const rest: map<string, Json>
    var clusterIP: string
    var clusterIPs: seq<string>
    const ports: array<ServicePort>

    constructor (spec: ServiceSpec)
      ensures Spec() == spec && fresh(ports)
    {
      kind, rest, clusterIP, clusterIPs := spec.kind, spec.rest, spec.clusterIP, spec.clusterIPs;
      ports := new ServicePort[|spec.ports|](i requires 0 <= i < |spec.ports| => spec.ports[i]);
    }

    ghost function Spec(): ServiceSpec
      reads this, ports
    {
      ServiceSpec(kind, clusterIP, clusterIPs, ports[..], rest)
    }

    /** live is what the API returns: an error, no object, or the live spec. */
    method SetLiveValues(live: Result<Option<ServiceSpec>>) returns (ok: bool)
      modifies this, ports
      ensures ok <==> live.Ok?
      ensures Spec() == if live.Ok? && live.value.Some? then WithLiveValues(old(Spec()), live.value.value)
                        else old(Spec())
    {
      if live.Failed? || live.value.None? {
        return live.Ok?;
      }
      var spec := live.value.value;
      clusterIP, clusterIPs := spec.clusterIP, spec.clusterIPs;
      if kind != CLUSTER_IP {
        for i := 0 to ports.Length
          invariant clusterIP == spec.clusterIP && clusterIPs == spec.clusterIPs
          invariant forall j :: 0 <= j < i ==> ports[j] == WithLiveNodePort(old(ports[j]), spec.ports)
          invariant forall j :: i <= j < ports.Length ==> ports[j] == old(ports[j])
        {
          var livePort := FindLivePort(ports[i], spec.ports);
          if livePort.Some? {
            ports[i] := ports[i].(nodePort := livePort.value.nodePort);
          }
        }
      }
      assert ports[..] == WithLiveValues(old(Spec()), spec).ports;
      ok := true;
    }
  }

  /** No two ports have the same number and protocol. */
  predicate UniquePorts(ports: seq<ServicePort>) {
    forall i, j :: 0 <= i < j < |ports| ==> ports[i].port != ports[j].port || ports[i].protocol != ports[j].protocol
  }

  /** The specs differ at most in clusterIP, clusterIPs and, unless the type is ClusterIP, node ports. */
  predicate DifferInLiveValues(desired: ServiceSpec, live: ServiceSpec) {
    && desired.kind == live.kind && desired.rest == live.rest
    && |desired.ports| == |live.ports|
    && forall i :: 0 <= i < |live.ports| ==>
         live.ports[i] == desired.ports[i]
         || (desired.kind != "ClusterIP" && live.ports[i] == desired.ports[i].(nodePort := live.ports[i].nodePort))
  }

  lemma {:induction false} FindUnique(p: ServicePort, ports: seq<ServicePort>, i: nat)
    requires UniquePorts(ports) && i < |ports| && SamePort(p, ports[i])
    ensures FindPort(p, ports) == Some(ports[i])
    decreases |ports|
  {
    if i > 0 {
      assert !SamePort(ports[0], ports[i]);
      assert ports[1..][i - 1] == ports[i];
      FindUnique(p, ports[1..], i - 1);
    }
  }

  /** The mutation by fields: the addresses are the live ones; for a type other than ClusterIP each port takes the
      node port of the live port with its number and protocol, and keeps its own if there is none; nothing else
      changes. */
  lemma LiveValuesByField(desired: ServiceSpec, live: ServiceSpec)
    requires UniquePorts(live.ports)
    ensures var r := WithLiveValues(desired, live);
            && r.clusterIP == live.clusterIP && r.clusterIPs == live.clusterIPs
            && r.kind == desired.kind && r.rest == desired.rest && |r.ports| == |desired.ports|
            && (desired.kind == "ClusterIP" ==> r.ports == desired.ports)
            && (desired.kind != "ClusterIP" ==> forall i :: 0 <= i < |desired.ports| ==>
                  PortTaken(desired.ports[i], r.ports[i], live.ports))
  {
    var r := WithLiveValues(desired, live);
    forall i | 0 <= i < |desired.ports| && desired.kind != "ClusterIP"
      ensures PortTaken(desired.ports[i], r.ports[i], live.ports)
    {
      var p := desired.ports[i];
      if j :| 0 <= j < |live.ports| && live.ports[j].port == p.port && live.ports[j].protocol == p.protocol {
        FindUnique(p, live.ports, j);
      } else {
        FindNone(p, live.ports);
      }
    }
  }

  predicate PortTaken(p: ServicePort, r: ServicePort, live: seq<ServicePort>) {
    && r.name == p.name && r.port == p.port && r.protocol == p.protocol && r.targetPort == p.targetPort
    && (forall j :: 0 <= j < |live| && live[j].port == p.port && live[j].protocol == p.protocol ==>
          r.nodePort == live[j].nodePort)
    && ((forall j :: 0 <= j < |live| ==> live[j].port != p.port || live[j].protocol != p.protocol) ==>
          r.nodePort == p.nodePort)
  }

  lemma {:induction false} FindNone(p: ServicePort, ports: seq<ServicePort>)
    requires forall j :: 0 <= j < |ports| ==> ports[j].port != p.port || ports[j].protocol != p.protocol
    ensures FindPort(p, ports).None?
    decreases |ports|
  {
    if ports != [] {
      forall j | 0 <= j < |ports| - 1 ensures ports[1..][j] == ports[j + 1] {}
      FindNone(p, ports[1..]);
    }
  }

  /** The mutation makes the desired spec equal to the live one exactly when they differ in live values only. */
  lemma LiveValuesGiveLiveSpec(desired: ServiceSpec, live: ServiceSpec)
    requires UniquePorts(live.ports)
    ensures WithLiveValues(desired, live) == live <==> DifferInLiveValues(desired, live)
  {
    var r := WithLiveValues(desired, live);
    if DifferInLiveValues(desired, live) {
      forall i | 0 <= i < |live.ports| ensures r.ports[i] == live.ports[i] {
        if desired.kind != CLUSTER_IP { FindUnique(desired.ports[i], live.ports, i); }
      }
      assert r.ports == live.ports;
    }
    if r == live {
      forall i | 0 <= i < |live.ports|
        ensures || live.ports[i] == desired.ports[i]
                || (desired.kind != "ClusterIP"
                    && live.ports[i] == desired.ports[i].(nodePort := live.ports[i].nodePort))
      {
        assert r.ports[i] == live.ports[i];
      }
    }
  }

  lemma {:induction false} FindIgnoresNodePort(p: ServicePort, q: ServicePort, ports: seq<ServicePort>)
    requires SamePort(p, q)
    ensures FindPort(p, ports) == FindPort(q, ports)
    decreases |ports|
  {
    if ports != [] { FindIgnoresNodePort(p, q, ports[1..]); }
  }

  /** Running the mutation twice is running it once. */
  lemma LiveValuesIdempotent(desired: ServiceSpec, live: ServiceSpec)
    ensures WithLiveValues(WithLiveValues(desired, live), live) == WithLiveValues(desired, live)
  {
    var once := WithLiveValues(desired, live);
    var twice := WithLiveValues(once, live);
    forall i | 0 <= i < |desired.ports| ensures twice.ports[i] == once.ports[i] {
      if desired.kind != CLUSTER_IP { FindIgnoresNodePort(desired.ports[i], once.ports[i], live.ports); }
    }
    assert twice.ports == once.ports;
  }

  /** The mutation reads its own result back: what a write may leave of the live values gives the same spec. */
  lemma LiveValuesStable(desired: ServiceSpec, live: ServiceSpec, again: ServiceSpec)
    requires UniquePorts(desired.ports)
    requires again.clusterIP == live.clusterIP && again.clusterIPs == live.clusterIPs
    requires again.ports == live.ports || again.ports == WithLiveValues(desired, live).ports
    ensures WithLiveValues(desired, again) == WithLiveValues(desired, live)
  {
    var r, r' := WithLiveValues(desired, live), WithLiveValues(desired, again);
    if desired.kind != CLUSTER_IP && again.ports != live.ports {
      forall i | 0 <= i < |desired.ports| ensures r'.ports[i] == r.ports[i] {
        forall j, k | 0 <= j < k < |r.ports| ensures !SamePort(r.ports[j], r.ports[k]) {
          assert !SamePort(desired.ports[j], desired.ports[k]);
        }
        FindUnique(desired.ports[i], r.ports, i);
      }
    }
    assert r'.ports == r.ports;
  }

  // ----- the Service as a document -----

  /** A member that the encoder leaves out when it is empty. */
  function Field(k: string, v: Json, empty: bool): map<string, Json> {
    if empty then map[] else map[k := v]
  }

  function PortTree(p: ServicePort): Json {
    Obj(Field("name", Str(p.name), p.name == "") + map["port" := Num(p.port), "targetPort" := p.targetPort]
        + Field("protocol", Str(p.protocol), p.protocol == "") + Field("nodePort", Num(p.nodePort), p.nodePort == 0))
  }

  function TextTrees(texts: seq<string>): seq<Json> {
    seq(|texts|, i requires 0 <= i < |texts| => Str(texts[i]))
  }

  function PortTrees(ports: seq<ServicePort>): seq<Json> {
    seq(|ports|, i requires 0 <= i < |ports| => PortTree(ports[i]))
  }

  function SpecTree(s: ServiceSpec): Json {
    Obj(s.rest
        + Field("type", Str(s.kind), s.kind == "")
        + Field("clusterIP", Str(s.clusterIP), s.clusterIP == "")
        + Field("clusterIPs", Arr(TextTrees(s.clusterIPs)), s.clusterIPs == [])
        + Field("ports", Arr(PortTrees(s.ports)), s.ports == []))
  }

  function TextOf(t: Json): string {
    if t.Str? then t.s else ""
  }

  function NumberOf(t: Json): int {
    if t.Num? then t.n else 0
  }

  function ElemsOf(t: Json): seq<Json> {
    if t.Arr? then t.elems else []
  }

  function ReadPort(t: Json): ServicePort {
    ServicePort(TextOf(Child(t, "name")), NumberOf(Child(t, "port")), TextOf(Child(t, "protocol")),
                Child(t, "targetPort"), NumberOf(Child(t, "nodePort")))
  }

  function ReadTexts(ts: seq<Json>): seq<string> {
    seq(|ts|, i requires 0 <= i < |ts| => TextOf(ts[i]))
  }

  function ReadPorts(ts: seq<Json>): seq<ServicePort> {
    seq(|ts|, i requires 0 <= i < |ts| => ReadPort(ts[i]))
  }

  /** A missing field reads as empty. */
  function ReadSpec(t: Json): ServiceSpec {
    ServiceSpec(TextOf(Child(t, "type")), TextOf(Child(t, "clusterIP")),
                ReadTexts(ElemsOf(Child(t, "clusterIPs"))), ReadPorts(ElemsOf(Child(t, "ports"))),
                MembersOf(t) - {"type", "clusterIP", "clusterIPs", "ports"})
  }

  /** rest does not hold the fields that have a place of their own. */
  predicate Clean(s: ServiceSpec) {
    s.rest.Keys !! {"type", "clusterIP", "clusterIPs", "ports"}
  }

  /** The members of a port by name, empty ones left out. */
  lemma PortMembers(p: ServicePort)
    ensures Get(PortTree(p), [Key("port")]) == Some(Num(p.port))
    ensures Get(PortTree(p), [Key("nodePort")]) == (if p.nodePort == 0 then None else Some(Num(p.nodePort)))
    ensures Get(PortTree(p), [Key("protocol")]) == (if p.protocol == "" then None else Some(Str(p.protocol)))
    ensures Get(PortTree(p), [Key("name")]) == (if p.name == "" then None else Some(Str(p.name)))
    ensures Get(PortTree(p), [Key("targetPort")]) == Some(p.targetPort)
  {
    assert forall k :: [Key(k)][1..] == [];
  }

  lemma PortRoundTrip(p: ServicePort)
    ensures ReadPort(PortTree(p)) == p
  {
  }

  lemma TextsRoundTrip(texts: seq<string>)
    ensures ReadTexts(TextTrees(texts)) == texts
  {
  }

  lemma PortsRoundTrip(ports: seq<ServicePort>)
    ensures ReadPorts(PortTrees(ports)) == ports
  {
    forall i | 0 <= i < |ports| { PortRoundTrip(ports[i]); }
  }

  lemma SpecTexts(s: ServiceSpec)
    requires Clean(s)
    ensures Child(SpecTree(s), "type") == (if s.kind == "" then Null else Str(s.kind))
    ensures Child(SpecTree(s), "clusterIP") == (if s.clusterIP == "" then Null else Str(s.clusterIP))
  {
  }

  lemma SpecLists(s: ServiceSpec)
    requires Clean(s)
    ensures Child(SpecTree(s), "clusterIPs") == (if s.clusterIPs == [] then Null else Arr(TextTrees(s.clusterIPs)))
    ensures Child(SpecTree(s), "ports") == (if s.ports == [] then Null else Arr(PortTrees(s.ports)))
  {
  }

  lemma SpecRest(s: ServiceSpec)
    requires Clean(s)
    ensures MembersOf(SpecTree(s)) - {"type", "clusterIP", "clusterIPs", "ports"} == s.rest
  {
  }

  /** Reading back what was written. */
  lemma SpecRoundTrip(s: ServiceSpec)
    requires Clean(s)
    ensures ReadSpec(SpecTree(s)) == s
  {
    SpecTexts(s);
    SpecLists(s);
    SpecRest(s);
    TextsRoundTrip(s.clusterIPs);
    PortsRoundTrip(s.ports);
  }

  const SPEC: Path := [Key("spec")]

  /** The builder's document, with its spec mutated by the live values of the object found. */
  function ServiceDoc(base: Doc, desired: ServiceSpec, live: Option<Doc>): Doc {
    Obj(base.members["spec" :=
          SpecTree(if live.Some? then WithLiveValues(desired, ReadSpec(Child(live.value, "spec"))) else desired)])
  }

  /** A template whose only mutation is SetLiveValues. */
  ghost predicate BuildsService(t: Template, base: Doc, desired: ServiceSpec) {
    Clean(desired) && forall live: Option<Doc> :: t.build(live) == Ok(ServiceDoc(base, desired, live))
  }

  lemma GetSpec(t: Json, q: Loc)
    requires t.Obj?
    ensures "spec" in t.members ==> Get(t, SPEC + q) == Get(t.members["spec"], q)
    ensures "spec" !in t.members ==> Get(t, SPEC + q) == None
  {
    assert (SPEC + q)[1..] == q;
  }

  /** So for a live Service that differs from its template in live values only, the engine decides not to
      write, whatever properties of the spec are ensured and ignored, if what is ensured outside the spec
      already looks as built. */
  lemma ServiceNeedsNoWrite(t: Template, base: Doc, desired: ServiceSpec, liveDoc: Doc, owner: Owner)
    requires t.enabled && BuildsService(t, base, desired) && [] !in t.ensured
    requires "spec" in liveDoc.members && var live := ReadSpec(liveDoc.members["spec"]);
             liveDoc.members["spec"] == SpecTree(live) && UniquePorts(live.ports) && DifferInLiveValues(desired, live)
    requires forall e :: e in t.ensured && !(SPEC <= e) ==> (Get(liveDoc, e).Some? <==> Get(base, e).Some?)
    requires forall q: Loc :: Covered(t.ensured, q) && !Ignored(t.ignored, q) && !(SPEC <= q) ==>
               Look(liveDoc, q) == Look(base, q)
    ensures Decide(Some(liveDoc), owner, t) == Do(Keep, true)
  {
    var live := ReadSpec(liveDoc.members["spec"]);
    var doc := ServiceDoc(base, desired, Some(liveDoc));
    LiveValuesGiveLiveSpec(desired, live);
    forall q: Loc
      ensures SPEC <= q ==> Get(liveDoc, q) == Get(doc, q)
      ensures !(SPEC <= q) && q != [] ==> Get(doc, q) == Get(base, q)
    {
      ReplacedSpec(liveDoc, base, doc, q);
    }
    UnmanagedEditsIgnored(liveDoc, doc, t.ensured, t.ignored);
    KeepIsSameTyped(liveDoc, doc, t);
  }

  lemma ReplacedSpec(from: Doc, base: Doc, doc: Doc, q: Loc)
    requires "spec" in from.members && doc.members == base.members["spec" := from.members["spec"]]
    ensures SPEC <= q ==> Get(from, q) == Get(doc, q)
    ensures !(SPEC <= q) && q != [] ==> Get(doc, q) == Get(base, q)
  {
    if SPEC <= q {
      assert q == SPEC + q[1..];
      GetSpec(from, q[1..]);
      GetSpec(doc, q[1..]);
    }
  }

  // ----- a service template over two passes -----

  predicate IsLiveField(k: string) {
    k == "clusterIP" || k == "clusterIPs" || k == "ports"
  }

  /** No ignored property is a live value, or lies in one. */
  ghost predicate LiveValuesNotIgnored(t: Template) {
    forall q: Loc, k :: IsLiveField(k) && SPEC + [Key(k)] <= q ==> !Ignored(t.ignored, q)
  }

  /** What the loop leaves at a location where the desired object has no object. */
  lemma SetOrKept(live: Json, desired: Json, ensured: seq<Path>, q: Loc)
    requires ReconcileAll(live, desired, ensured).Ok?
    requires Get(desired, q).Some? ==> !Get(desired, q).value.Obj?
    ensures var r := ReconcileAll(live, desired, ensured).value;
            if Covered(ensured, q) then Get(r, q) == Get(desired, q)
            else || Get(r, q) == Get(live, q)
                 || (Get(r, q).Some? && Get(r, q).value.Obj? && Get(live, q).Some? && Get(live, q).value.Obj?)
  {
    var r := ReconcileAll(live, desired, ensured).value;
    LoopMerges(live, desired, ensured);
    CoveredAgrees(r, live, desired, ensured, q);
    if !Covered(ensured, q) {
      ParentsStayObjects(live, desired, ensured, q);
      NotAbove(desired, ensured, q);
      assert Look(r, q) == Look(live, q);
    }
  }

  lemma NotAbove(t: Json, ensured: seq<Path>, q: Loc)
    requires Get(t, q).Some? ==> !Get(t, q).value.Obj?
    ensures !Above(t, ensured, q)
  {
    if Above(t, ensured, q) {
      var e :| e in ensured && q < e && Get(t, e).Some?;
      GetPrefix(t, q, e);
    }
  }

  /** after is the object the loop computed, in Patch mode without the nulls it lost. */
  ghost predicate IsWritten(after: Json, live: Json, r: Json) {
    forall s: Loc :: !Lost(live, r, s) ==> Look(after, s) == Look(r, s)
  }

  lemma WrittenUpdate(live: Json, r: Json)
    ensures IsWritten(r, live, r)
  {
  }

  lemma WrittenPatch(live: Doc, r: Doc)
    ensures IsWritten(Merge(live, Diff(live.members, r.members)), live, r)
  {
    forall s: Loc { LookPatched(live, r, s); }
  }

  /** Where nothing at or below q is a lost null, q has what the loop computed. */
  lemma KeptInWrite(after: Json, live: Json, r: Json, q: Loc)
    requires IsWritten(after, live, r)
    requires Get(r, q) == Get(live, q) || (Get(r, q).Some? ==> !Get(r, q).value.Obj? && !Get(r, q).value.Null?)
    ensures Get(after, q) == Get(r, q)
  {
    forall s: Loc | q <= s ensures !Lost(live, r, s) {
      assert s == q + s[|q|..];
      GetConcat(r, q, s[|q|..]);
      GetConcat(live, q, s[|q|..]);
      if s != q && IsPath(s) && Get(r, q).Some? && !Get(r, q).value.Obj? { assert s[|q|] in s; }
    }
    SameGetLooks(after, r, q);
  }

  /** now is as it was or as wanted; an object in its place stays one. */
  predicate FieldKept(now: Option<Json>, was: Option<Json>, wanted: Option<Json>) {
    now == wanted || now == was || (now.Some? && now.value.Obj? && was.Some? && was.value.Obj?)
  }

  lemma FieldWritten(after: Json, live: Json, r: Json, q: Loc, wanted: Option<Json>)
    requires IsWritten(after, live, r) && FieldKept(Get(r, q), Get(live, q), wanted)
    requires wanted.Some? ==> !wanted.value.Obj? && !wanted.value.Null?
    ensures FieldKept(Get(after, q), Get(live, q), wanted)
  {
    if Get(r, q) == Get(live, q) || Get(r, q) == wanted {
      KeptInWrite(after, live, r, q);
    } else {
      assert !Lost(live, r, q) && Look(after, q) == Look(r, q);
    }
  }

  /** One live field of the spec after a write: as the template wanted it or as it was. */
  lemma LiveFieldAfter(live: Doc, desired: Doc, t: Template, nd: Json, after: Doc, k: string)
    requires IsLiveField(k) && LiveValuesNotIgnored(t)
    requires Normalize(desired, t.ensured, t.ignored) == Ok(nd) && ReconcileAll(live, nd, t.ensured).Ok?
    requires var f := Get(desired, SPEC + [Key(k)]); f.Some? ==> !f.value.Obj? && !f.value.Null?
    requires IsWritten(after, live, ReconcileAll(live, nd, t.ensured).value)
    ensures FieldKept(Get(after, SPEC + [Key(k)]), Get(live, SPEC + [Key(k)]), Get(desired, SPEC + [Key(k)]))
  {
    LiveFieldComputed(live, desired, t, nd, k);
    FieldWritten(after, live, ReconcileAll(live, nd, t.ensured).value, SPEC + [Key(k)], Get(desired, SPEC + [Key(k)]));
  }

  lemma LiveFieldComputed(live: Doc, desired: Doc, t: Template, nd: Json, k: string)
    requires IsLiveField(k) && LiveValuesNotIgnored(t)
    requires Normalize(desired, t.ensured, t.ignored) == Ok(nd) && ReconcileAll(live, nd, t.ensured).Ok?
    requires var f := Get(desired, SPEC + [Key(k)]); f.Some? ==> !f.value.Obj?
    ensures var q := SPEC + [Key(k)];
            var r := ReconcileAll(live, nd, t.ensured).value;
            || Get(r, q) == Get(desired, q)
            || Get(r, q) == Get(live, q)
            || (Get(r, q).Some? && Get(r, q).value.Obj? && Get(live, q).Some? && Get(live, q).value.Obj?)
  {
    var q := SPEC + [Key(k)];
    LookNormalize(desired, t.ensured, t.ignored);
    NotAbove(desired, t.ensured, q);
    if Covered(t.ensured, q) {
      forall s: Loc | q <= s ensures Look(nd, s) == Look(desired, s) {
        CoveredAbove(t.ensured, q, s);
      }
      SameGetLooks(nd, desired, q);
    } else {
      assert Look(nd, q) == None;
    }
    SetOrKept(live, nd, t.ensured, q);
  }

  /** The field of a document's spec, by its location. */
  lemma SpecField(doc: Doc, k: string)
    ensures var f := Get(doc, SPEC + [Key(k)]);
            Child(Child(doc, "spec"), k) == if f.Some? then f.value else Null
  {
    GetSpec(doc, [Key(k)]);
    assert [Key(k)][1..] == [];
  }

  /** A template of this kind builds the same from whatever a pass leaves: its live values survive every create,
      update and patch. */
  lemma ServiceStable(t: Template, base: Doc, desired: ServiceSpec, live: Option<Doc>, owner: Owner)
    requires BuildsService(t, base, desired) && UniquePorts(desired.ports) && LiveValuesNotIgnored(t)
    ensures Stable(live, owner, t)
  {
    ServicePlanStable(t, base, desired, live, owner, Decide(live, owner, t));
  }

  lemma ServicePlanStable(t: Template, base: Doc, desired: ServiceSpec, live: Option<Doc>, owner: Owner, plan: Plan)
    requires BuildsService(t, base, desired) && UniquePorts(desired.ports) && LiveValuesNotIgnored(t)
    requires plan == Decide(live, owner, t)
    ensures plan.Do? ==> var again := t.build(After(live, plan.change));
                         if t.enabled then again == t.build(live) else again.Ok?
  {
    if plan.Do? && t.enabled && plan.change != Keep {
      PlanManages(live, owner, t);
      if live.None? {
        CreatedIs(owner, t, plan.change);
        CreatedServiceStable(base, desired, plan.change.doc, owner);
      } else {
        WrittenStable(t, base, desired, live.value, owner, plan.change);
      }
    }
  }

  lemma CreatedIs(owner: Owner, t: Template, change: Change)
    requires t.enabled && Decide(None, owner, t).Do? && Decide(None, owner, t).change == change
    ensures t.build(None).Ok? && change.Create? && WithOwner(t.build(None).value, owner) == Ok(change.doc)
  {
  }

  lemma WrittenStable(t: Template, base: Doc, desired: ServiceSpec, live: Doc, owner: Owner, change: Change)
    requires BuildsService(t, base, desired) && UniquePorts(desired.ports) && LiveValuesNotIgnored(t)
    requires t.enabled && Decide(Some(live), owner, t) == Do(change, true) && change != Keep
    ensures var after := After(Some(live), change);
            after.Some? && ServiceDoc(base, desired, after) == ServiceDoc(base, desired, Some(live))
  {
    var built := ServiceDoc(base, desired, Some(live));
    assert t.build(Some(live)) == Ok(built);
    var nd := Normalize(built, t.ensured, t.ignored).value;
    WrittenIs(live, built, t, nd, change);
    LookNormalize(built, t.ensured, t.ignored);
    var r := ReconcileAll(live, nd, t.ensured).value;
    if change.Update? { WrittenUpdate(live, r); } else { WrittenPatch(live, r); }
    WrittenServiceStable(t, base, desired, live, built, nd, After(Some(live), change).value);
  }

  lemma CreatedServiceStable(base: Doc, desired: ServiceSpec, d: Doc, owner: Owner)
    requires Clean(desired) && UniquePorts(desired.ports)
    requires WithOwner(ServiceDoc(base, desired, None), owner) == Ok(d)
    ensures ServiceDoc(base, desired, Some(d)) == ServiceDoc(base, desired, None)
  {
    StampKeepsSpec(ServiceDoc(base, desired, None), d, owner);
    SpecRoundTrip(desired);
    LiveValuesGiveLiveSpec(desired, desired);
  }

  lemma StampKeepsSpec(built: Doc, d: Doc, owner: Owner)
    requires WithOwner(built, owner) == Ok(d) && "spec" in built.members
    ensures Child(d, "spec") == Child(built, "spec")
  {
    StampedObject(built, owner);
    SameGetLooks(d, built, SPEC);
    GetSpec(d, []);
    GetSpec(built, []);
    assert SPEC + [] == SPEC;
  }

  /** A field now has what was wanted or what it had; an object in its place reads as empty. */
  predicate KeptOrWanted(now: Json, was: Json, wanted: Json) {
    now == was || now == wanted || (now.Obj? && was.Obj?)
  }

  lemma LiveFieldsAfter(t: Template, live: Doc, built: Doc, nd: Json, after: Doc, k: string)
    requires IsLiveField(k) && LiveValuesNotIgnored(t)
    requires Normalize(built, t.ensured, t.ignored) == Ok(nd) && ReconcileAll(live, nd, t.ensured).Ok?
    requires "spec" in built.members && built.members["spec"].Obj?
    requires k in built.members["spec"].members ==>
               !built.members["spec"].members[k].Obj? && !built.members["spec"].members[k].Null?
    requires IsWritten(after, live, ReconcileAll(live, nd, t.ensured).value)
    ensures KeptOrWanted(Child(Child(after, "spec"), k), Child(Child(live, "spec"), k), Child(Child(built, "spec"), k))
  {
    SpecField(built, k);
    SpecField(live, k);
    SpecField(after, k);
    GetSpec(built, [Key(k)]);
    assert [Key(k)][1..] == [];
    LiveFieldAfter(live, built, t, nd, after, k);
  }

  /** The live values of a spec: address, addresses, ports. */
  predicate SameAddresses(a: ServiceSpec, b: ServiceSpec) {
    a.clusterIP == b.clusterIP && a.clusterIPs == b.clusterIPs
  }

  lemma ReadAddresses(wanted: ServiceSpec, now: Json, was: Json)
    requires Clean(wanted) && SameAddresses(wanted, ReadSpec(was))
    requires KeptOrWanted(Child(now, "clusterIP"), Child(was, "clusterIP"), Child(SpecTree(wanted), "clusterIP"))
    requires KeptOrWanted(Child(now, "clusterIPs"), Child(was, "clusterIPs"), Child(SpecTree(wanted), "clusterIPs"))
    ensures SameAddresses(ReadSpec(now), ReadSpec(was))
  {
    SpecRoundTrip(wanted);
  }

  lemma ReadPortsBack(wanted: ServiceSpec, now: Json, was: Json)
    requires Clean(wanted)
    requires KeptOrWanted(Child(now, "ports"), Child(was, "ports"), Child(SpecTree(wanted), "ports"))
    ensures ReadSpec(now).ports == ReadSpec(was).ports || ReadSpec(now).ports == wanted.ports
  {
    SpecRoundTrip(wanted);
  }

  lemma LiveFieldsHoldNoObject(s: ServiceSpec, k: string)
    requires Clean(s) && IsLiveField(k)
    ensures k in SpecTree(s).members ==> !SpecTree(s).members[k].Obj? && !SpecTree(s).members[k].Null?
  {
  }

  lemma WrittenServiceStable(t: Template, base: Doc, desired: ServiceSpec, live: Doc, built: Doc, nd: Json, after: Doc)
    requires Clean(desired) && UniquePorts(desired.ports) && LiveValuesNotIgnored(t)
    requires built == ServiceDoc(base, desired, Some(live))
    requires Normalize(built, t.ensured, t.ignored) == Ok(nd) && ReconcileAll(live, nd, t.ensured).Ok?
    requires IsWritten(after, live, ReconcileAll(live, nd, t.ensured).value)
    ensures ServiceDoc(base, desired, Some(after)) == built
  {
    var wanted := WithLiveValues(desired, ReadSpec(Child(live, "spec")));
    assert built.members["spec"] == SpecTree(wanted);
    LiveFieldsHoldNoObject(wanted, "clusterIP");
    LiveFieldsHoldNoObject(wanted, "clusterIPs");
    LiveFieldsHoldNoObject(wanted, "ports");
    LiveFieldsAfter(t, live, built, nd, after, "clusterIP");
    LiveFieldsAfter(t, live, built, nd, after, "clusterIPs");
    LiveFieldsAfter(t, live, built, nd, after, "ports");
    ReadAddresses(wanted, Child(after, "spec"), Child(live, "spec"));
    ReadPortsBack(wanted, Child(after, "spec"), Child(live, "spec"));
    LiveValuesStable(desired, ReadSpec(Child(live, "spec")), ReadSpec(Child(after, "spec")));
  }

  /** A template of this kind that ignores no live value. */
  ghost predicate ServiceTemplate(t: Template, base: Doc, desired: ServiceSpec) {
    BuildsService(t, base, desired) && UniquePorts(desired.ports) && LiveValuesNotIgnored(t)
  }

  /** After a run over Service templates that does not fail, in whatever mode and whatever the cluster had before,
      the next run without failures finds nothing to do if and only if every pass settled its object; reading the
      live values back never makes a difference. */
  lemma ServiceRunIsQuiet(w: World, owner: Owner, ts: seq<Template>, bases: seq<Doc>, specs: seq<ServiceSpec>,
                          cfg: Config, w1: World, out1: Outcome, cfg2: Config, w2: World, out2: Outcome)
    requires |bases| == |specs| == |ts| && DistinctKeys(ts)
    requires forall i :: 0 <= i < |ts| ==> ServiceTemplate(ts[i], bases[i], specs[i])
    requires Ran(w, owner, ts, cfg, w1, out1) && out1 != Error
    requires cfg2 == cfg.(faults := {}) && Ran(w1, owner, ts, cfg2, w2, out2)
    ensures out2 == Continue && w2 == w1 <==> AllSettle(w, owner, ts)
  {
    forall i | 0 <= i < |ts| ensures Stable(Lookup(w.objects, ts[i].key), owner, ts[i]) {
      ServiceStable(ts[i], bases[i], specs[i], Lookup(w.objects, ts[i].key), owner);
    }
    SecondRunIsQuiet(w, owner, ts, cfg, w1, out1, cfg2, w2, out2);
  }

  const TEST_ENSURED: seq<Path> := [
    [Key("metadata"), Key("annotations")], [Key("metadata"), Key("labels")], [Key("spec"), Key("type")],
    [Key("spec"), Key("selector")], [Key("spec"), Key("ports")], [Key("spec"), Key("clusterIP")]]

  /** The Service template of the test controller settles its object in every pass. */
  lemma TestServiceSettles(t: Template, base: Doc, desired: ServiceSpec, live: Option<Doc>, owner: Owner)
    requires BuildsService(t, base, desired) && UniquePorts(desired.ports)
    requires t.enabled && t.op.UpdateOp? && t.ensured == TEST_ENSURED && t.ignored == []
    requires Decide(live, owner, t).Do?
    ensures ServiceTemplate(t, base, desired) && SettlesOn(live, owner, t)
  {
    assert t.build(live).Ok?;
    forall e | e in t.ensured ensures !(e <= OWNER_REFS) { TestPaths(e); }
    EnsuredNotIgnoredStrandsNothing(t.build(live).value, t.ensured, t.ignored);
    UsualStampsAreHidden(t.build(live).value, owner, t);
    assert [] <= OWNER_REFS;
    SettlesByTemplate(live, owner, t);
  }

  lemma TestPaths(e: Path)
    requires e in TEST_ENSURED
    ensures !(e <= OWNER_REFS)
  {
    assert |e| == 2 && e[1] != Key("ownerReferences");
  }
}
