/** The cluster as the reconciler sees it, and the decision CreateOrModify takes for one template. */
module Cluster {
  import opened JsonTree
  import opened Engine
  import opened MergePatch

  /** A Kubernetes object in unstructured form. */
  type Doc = j: Json | j.Obj? witness EMPTY

  datatype GVK = GVK(apiVersion: string, kind: string)

  datatype ObjectKey = ObjectKey(gvk: GVK, namespace: string, name: string)

  datatype Owner = Owner(gvk: GVK, namespace: string, name: string, pruneAnnotation: Option<string>)

  datatype ModifyOp = UpdateOp | PatchOp | UnknownOp

  /** A template after its options are resolved. build is its builder followed by its mutations, which may
      read the object that the cluster has at the template's key; blanks comes with the Go type of its kind. */
  datatype Template = Template(
    key: ObjectKey,
    build: Option<Doc> -> Result<Doc>,
    enabled: bool,
    ensured: seq<Path>,
    ignored: seq<Pattern>,
    op: ModifyOp,
    blanks: Blanks)

  const OWNER_REFS: Path := [Key("metadata"), Key("ownerReferences")]
  const METADATA: Path := [Key("metadata")]
  const FINALIZERS: Path := [Key("metadata"), Key("finalizers")]
  const DELETION: Path := [Key("metadata"), Key("deletionTimestamp")]

  // ----- metadata -----

  function ListAt(doc: Json, p: Path): seq<Json> {
    match Get(doc, p)
    case Some(Arr(es)) => es
    case _ => []
  }

  predicate RefersTo(ref: Json, owner: Owner) {
    && Child(ref, "kind") == Str(owner.gvk.kind)
    && Child(ref, "name") == Str(owner.name)
    && Child(ref, "apiVersion") == Str(owner.gvk.apiVersion)
  }

  predicate IsOwned(doc: Json, owner: Owner) {
    exists ref :: ref in ListAt(doc, OWNER_REFS) && RefersTo(ref, owner)
  }

  predicate IsBeingDeleted(doc: Json) {
    Get(doc, DELETION).Some? && Get(doc, DELETION).value != Null
  }

  predicate HasFinalizers(doc: Json) {
    ListAt(doc, FINALIZERS) != []
  }

  // the same, read member by member

  function MemberOf(t: Json, k: string): Option<Json> {
    if t.Obj? && k in t.members then Some(t.members[k]) else None
  }

  function MetadataOf(doc: Json, k: string): Option<Json> {
    match MemberOf(doc, "metadata")
    case None => None
    case Some(x) => MemberOf(x, k)
  }

  function RefEntries(doc: Json): seq<Json> {
    match MetadataOf(doc, "ownerReferences")
    case Some(Arr(es)) => es
    case _ => []
  }

  /** An entry with this kind, name and apiVersion. */
  predicate Identifies(ref: Json, owner: Owner) {
    && MemberOf(ref, "kind") == Some(Str(owner.gvk.kind))
    && MemberOf(ref, "name") == Some(Str(owner.name))
    && MemberOf(ref, "apiVersion") == Some(Str(owner.gvk.apiVersion))
  }

  predicate HasOwner(doc: Json, owner: Owner) {
    exists i :: 0 <= i < |RefEntries(doc)| && Identifies(RefEntries(doc)[i], owner)
  }

  /** The object is marked for deletion. */
  predicate Marked(doc: Json) {
    MetadataOf(doc, "deletionTimestamp") != None && MetadataOf(doc, "deletionTimestamp") != Some(Null)
  }

  /** A delete does not remove the object at once. */
  predicate Protected(doc: Json) {
    match MetadataOf(doc, "finalizers")
    case Some(Arr(es)) => es != []
    case _ => false
  }

  lemma GetMember(t: Json, k: string)
    ensures Get(t, [Key(k)]) == MemberOf(t, k)
  {
  }

  lemma GetMetadata(doc: Json, k: string)
    ensures Get(doc, [Key("metadata"), Key(k)]) == MetadataOf(doc, k)
  {
    assert [Key("metadata"), Key(k)] == [Key("metadata")] + [Key(k)];
    GetConcat(doc, [Key("metadata")], [Key(k)]);
    GetMember(doc, "metadata");
    if MemberOf(doc, "metadata").Some? { GetMember(MemberOf(doc, "metadata").value, k); }
  }

  lemma ReferringEntry(refs: seq<Json>, owner: Owner)
    ensures (exists ref :: ref in refs && RefersTo(ref, owner)) <==>
            exists i :: 0 <= i < |refs| && Identifies(refs[i], owner)
  {
    if i :| 0 <= i < |refs| && Identifies(refs[i], owner) { assert refs[i] in refs && RefersTo(refs[i], owner); }
  }

  /** What the reconciler reads in the metadata of an object. */
  lemma MetadataMeaning(doc: Json, owner: Owner)
    ensures IsOwned(doc, owner) <==> HasOwner(doc, owner)
    ensures IsBeingDeleted(doc) <==> Marked(doc)
    ensures HasFinalizers(doc) <==> Protected(doc)
    ensures ListAt(doc, OWNER_REFS) == RefEntries(doc)
  {
    GetMetadata(doc, "ownerReferences");
    GetMetadata(doc, "deletionTimestamp");
    GetMetadata(doc, "finalizers");
    ReferringEntry(RefEntries(doc), owner);
  }

  function OwnerRef(owner: Owner): Json {
    Obj(map["apiVersion" := Str(owner.gvk.apiVersion), "kind" := Str(owner.gvk.kind), "name" := Str(owner.name),
            "controller" := Bool(true), "blockOwnerDeletion" := Bool(true)])
  }

  function CountSlashes(s: string): nat {
    if s == "" then 0 else (if s[0] == '/' then 1 else 0) + CountSlashes(s[1..])
  }

  function UpToSlash(s: string): string {
    if s == "" || s[0] == '/' then "" else [s[0]] + UpToSlash(s[1..])
  }

  /** The group of an apiVersion "group/version" or "version"; None if it does not parse. */
  function ApiGroup(apiVersion: string): Option<string> {
    var n := CountSlashes(apiVersion);
    if n == 0 then Some("") else if n == 1 then Some(UpToSlash(apiVersion)) else None
  }

  predicate NoSlash(s: string) {
    '/' !in s
  }

  lemma {:induction false} SlashesOf(g: string, v: string)
    requires NoSlash(g)
    ensures CountSlashes(g + v) == CountSlashes(v)
    ensures UpToSlash(g + "/" + v) == g
    decreases |g|
  {
    if g == "" {
      assert g + v == v && g + "/" + v == "/" + v;
    } else {
      assert g + v == [g[0]] + (g[1..] + v) && g + "/" + v == [g[0]] + (g[1..] + "/" + v);
      assert g[0] in g && forall c :: c in g[1..] ==> c in g;
      SlashesOf(g[1..], v);
      assert [g[0]] + g[1..] == g;
    }
  }

  /** The group is what stands before the slash, nothing without a slash, and undefined with several. */
  lemma ApiGroupMeaning(g: string, v: string, rest: string)
    requires NoSlash(g) && NoSlash(v)
    ensures ApiGroup(v) == Some("")
    ensures ApiGroup(g + "/" + v) == Some(g)
    ensures ApiGroup(g + "/" + v + "/" + rest) == None
  {
    assert v + "" == v && g + ("/" + v) == g + "/" + v;
    assert g + ("/" + v + "/" + rest) == g + "/" + v + "/" + rest;
    SlashesOf(v, "");
    SlashesOf(g, v);
    SlashesOf(g, "/" + v);
    SlashesOf(g, "/" + v + "/" + rest);
    assert ("/" + v)[1..] == v && ("/" + v + "/" + rest)[1..] == v + ("/" + rest) && ("/" + rest)[1..] == rest;
    SlashesOf(v, "/" + rest);
  }

  /** Whether an entry stands for the owner in any version of its group. */
  predicate SameOwner(ref: Json, owner: Owner) {
    && Child(ref, "kind") == Str(owner.gvk.kind)
    && Child(ref, "name") == Str(owner.name)
    && Child(ref, "apiVersion").Str?
    && ApiGroup(owner.gvk.apiVersion).Some?
    && ApiGroup(Child(ref, "apiVersion").s) == ApiGroup(owner.gvk.apiVersion)
  }

  /** The first entry marked as controller. */
  function ControllerOf(refs: seq<Json>): Option<Json> {
    if refs == [] then None
    else if Child(refs[0], "controller") == Bool(true) then Some(refs[0])
    else ControllerOf(refs[1..])
  }

  /** The position of the owner's first entry, or the end of the list. */
  function IndexOf(refs: seq<Json>, owner: Owner): (i: nat)
    ensures i <= |refs|
    ensures forall j :: 0 <= j < i ==> !SameOwner(refs[j], owner)
    ensures i < |refs| ==> SameOwner(refs[i], owner)
  {
    if refs == [] || SameOwner(refs[0], owner) then 0 else 1 + IndexOf(refs[1..], owner)
  }

  /** The owner's first entry refreshed in place, or a new entry at the end. */
  function Upsert(refs: seq<Json>, owner: Owner): seq<Json> {
    var i := IndexOf(refs, owner);
    if i < |refs| then refs[i := OwnerRef(owner)] else refs + [OwnerRef(owner)]
  }

  predicate OwnedByAnother(doc: Doc, owner: Owner) {
    var c := ControllerOf(ListAt(doc, OWNER_REFS));
    c.Some? && !SameOwner(c.value, owner)
  }

  /** The owner references of a typed object are a list, or nil. */
  predicate RefsAreList(doc: Json) {
    match Get(doc, OWNER_REFS)
    case None => true
    case Some(x) => x.Arr? || x.Null?
  }

  /** SetControllerReference. */
  function WithOwner(doc: Doc, owner: Owner): Result<Json> {
    if OwnedByAnother(doc, owner) || !RefsAreList(doc) then Failed
    else Set(doc, OWNER_REFS, Arr(Upsert(ListAt(doc, OWNER_REFS), owner)))
  }

  lemma OwnerRefRefers(owner: Owner)
    ensures RefersTo(OwnerRef(owner), owner)
  {
  }

  /** now is was with the owner's first entry, or none, replaced by a fresh one. */
  ghost predicate IsUpsert(was: seq<Json>, now: seq<Json>, owner: Owner) {
    exists i :: 0 <= i <= |was| && ReplacedAt(was, now, owner, i)
  }

  ghost predicate ReplacedAt(was: seq<Json>, now: seq<Json>, owner: Owner, i: nat)
    requires i <= |was|
  {
    && (forall j :: 0 <= j < i ==> !SameOwner(was[j], owner))
    && (i < |was| ==> SameOwner(was[i], owner))
    && |now| == (if i < |was| then |was| else |was| + 1)
    && now[i] == OwnerRef(owner)
    && forall j :: 0 <= j < |was| && j != i ==> now[j] == was[j]
  }

  /** d is the desired object, owned by the owner, with all other owner references in place and everything
      else as built. */
  ghost predicate IsStamped(d: Json, desired: Json, owner: Owner) {
    && d.Obj? && IsOwned(d, owner)
    && IsUpsert(ListAt(desired, OWNER_REFS), ListAt(d, OWNER_REFS), owner)
    && forall q: Loc :: !(OWNER_REFS <= q) && !(q <= OWNER_REFS) ==> Look(d, q) == Look(desired, q)
  }

  /** Setting the owner fails exactly when the first controller entry is somebody else's, or metadata and owner
      references are not of their type. */
  lemma StampSucceeds(desired: Doc, owner: Owner)
    ensures WithOwner(desired, owner).Ok? <==>
              && !OwnedByAnother(desired, owner) && RefsAreList(desired)
              && (Get(desired, METADATA).Some? ==> Get(desired, METADATA).value.Obj?)
  {
    assert OWNER_REFS[..0] == [] && OWNER_REFS[..1] == METADATA;
    SetSucceeds(desired, OWNER_REFS, Arr(Upsert(ListAt(desired, OWNER_REFS), owner)));
  }

  lemma StampedObject(desired: Doc, owner: Owner)
    requires WithOwner(desired, owner).Ok?
    ensures IsStamped(WithOwner(desired, owner).value, desired, owner)
  {
    var refs := ListAt(desired, OWNER_REFS);
    var all := Arr(Upsert(refs, owner));
    GetAfterSet(desired, OWNER_REFS, all);
    assert ReplacedAt(refs, all.elems, owner, IndexOf(refs, owner));
    assert all.elems[IndexOf(refs, owner)] == OwnerRef(owner);
    OwnerRefRefers(owner);
    forall q: Loc | !(OWNER_REFS <= q) && !(q <= OWNER_REFS)
      ensures Look(WithOwner(desired, owner).value, q) == Look(desired, q)
    {
      LookAfterSet(desired, OWNER_REFS, all, q);
    }
  }

  /** An entry that marks its owner as the controller. */
  predicate IsController(ref: Json) {
    MemberOf(ref, "controller") == Some(Bool(true))
  }

  predicate SameGroup(a: string, b: string) {
    ApiGroup(a).Some? && ApiGroup(a) == ApiGroup(b)
  }

  /** Same kind, name and API group. */
  ghost predicate StandsFor(ref: Json, owner: Owner) {
    && MemberOf(ref, "kind") == Some(Str(owner.gvk.kind))
    && MemberOf(ref, "name") == Some(Str(owner.name))
    && exists v :: MemberOf(ref, "apiVersion") == Some(Str(v)) && SameGroup(owner.gvk.apiVersion, v)
  }

  /** Somebody else controls the object: its first controller entry does not stand for the owner. */
  ghost predicate ControlledByAnother(doc: Json, owner: Owner) {
    exists i :: 0 <= i < |RefEntries(doc)| && IsController(RefEntries(doc)[i])
                && (forall j :: 0 <= j < i ==> !IsController(RefEntries(doc)[j]))
                && !StandsFor(RefEntries(doc)[i], owner)
  }

  lemma StandsForMeaning(ref: Json, owner: Owner)
    ensures SameOwner(ref, owner) <==> StandsFor(ref, owner)
  {
    if SameOwner(ref, owner) {
      assert MemberOf(ref, "apiVersion") == Some(Str(Child(ref, "apiVersion").s));
    }
  }

  lemma {:induction false} ControllerIsFirst(refs: seq<Json>) returns (i: nat)
    ensures i <= |refs| && forall j :: 0 <= j < i ==> !IsController(refs[j])
    ensures i < |refs| ==> IsController(refs[i])
    ensures ControllerOf(refs) == if i < |refs| then Some(refs[i]) else None
    decreases |refs|
  {
    if refs == [] || Child(refs[0], "controller") == Bool(true) {
      i := 0;
    } else {
      var rest := refs[1..];
      var n := ControllerIsFirst(rest);
      i := n + 1;
      forall j | 0 <= j < i ensures !IsController(refs[j]) {
        if j > 0 { assert refs[j] == rest[j - 1]; }
      }
    }
  }

  lemma OwnedByAnotherMeaning(doc: Doc, owner: Owner)
    ensures OwnedByAnother(doc, owner) <==> ControlledByAnother(doc, owner)
  {
    var refs := RefEntries(doc);
    assert ListAt(doc, OWNER_REFS) == refs by { MetadataMeaning(doc, owner); }
    var i := ControllerIsFirst(refs);
    if i < |refs| { StandsForMeaning(refs[i], owner); }
  }

  /** The owner's entry of a stored object, member by member. */
  predicate IsControllerRef(ref: Json, owner: Owner) {
    && Identifies(ref, owner)
    && MemberOf(ref, "controller") == Some(Bool(true))
    && MemberOf(ref, "blockOwnerDeletion") == Some(Bool(true))
  }

  /** The references of a stamped object: one entry is the owner's controller reference, no entry before it is a
      controller, and every other entry is as built. */
  ghost predicate RefsStamped(now: seq<Json>, was: seq<Json>, owner: Owner, i: nat) {
    && i < |now| && IsControllerRef(now[i], owner)
    && (forall j :: 0 <= j < i ==> !IsController(now[j]))
    && |was| <= |now| <= |was| + 1
    && (i < |was| ==> |now| == |was| && StandsFor(was[i], owner))
    && (forall j :: 0 <= j < |was| && j != i ==> now[j] == was[j])
  }

  lemma NoControllerBefore(refs: seq<Json>, owner: Owner, j: nat)
    requires j <= |refs| && forall l :: 0 <= l < j ==> !StandsFor(refs[l], owner)
    requires forall c :: 0 <= c < |refs| && IsController(refs[c]) && (forall l :: 0 <= l < c ==> !IsController(refs[l]))
                         ==> StandsFor(refs[c], owner)
    ensures forall l :: 0 <= l < j ==> !IsController(refs[l])
    decreases j
  {
    if j > 0 { NoControllerBefore(refs, owner, j - 1); }
  }

  lemma UpsertStamps(was: seq<Json>, owner: Owner, i: nat)
    requires i == IndexOf(was, owner)
    requires forall c :: 0 <= c < |was| && IsController(was[c]) && (forall l :: 0 <= l < c ==> !IsController(was[l]))
                         ==> StandsFor(was[c], owner)
    ensures RefsStamped(Upsert(was, owner), was, owner, i)
  {
    forall j | 0 <= j < |was| ensures SameOwner(was[j], owner) <==> StandsFor(was[j], owner) {
      StandsForMeaning(was[j], owner);
    }
    NoControllerBefore(was, owner, i);
  }

  /** What setting the owner does to the references of an object nobody else controls. */
  lemma StampedRefs(desired: Doc, owner: Owner) returns (i: nat)
    requires WithOwner(desired, owner).Ok?
    ensures RefsStamped(RefEntries(WithOwner(desired, owner).value), RefEntries(desired), owner, i)
  {
    var was := RefEntries(desired);
    i := IndexOf(was, owner);
    RefsAfterStamp(desired, owner, WithOwner(desired, owner).value);
    OwnedByAnotherMeaning(desired, owner);
    UpsertStamps(was, owner, i);
  }

  lemma RefsAfterStamp(desired: Doc, owner: Owner, d: Doc)
    requires WithOwner(desired, owner) == Ok(d)
    ensures RefEntries(d) == Upsert(RefEntries(desired), owner)
  {
    MetadataMeaning(desired, owner);
    MetadataMeaning(d, owner);
    GetAfterSet(desired, OWNER_REFS, Arr(Upsert(ListAt(desired, OWNER_REFS), owner)));
  }

  /** After that another owner is refused unless it has the same kind, name and API group; and the owner's entry is
      the only controller exactly when no other entry of the build was one. */
  lemma StampedIsControlled(desired: Doc, d: Doc, owner: Owner, other: Owner, i: nat)
    requires WithOwner(desired, owner) == Ok(d)
    requires RefsStamped(RefEntries(d), RefEntries(desired), owner, i)
    ensures WithOwner(d, other).Ok? <==>
              && other.gvk.kind == owner.gvk.kind && other.name == owner.name
              && SameGroup(other.gvk.apiVersion, owner.gvk.apiVersion)
    ensures (forall j :: 0 <= j < |RefEntries(d)| ==> (IsController(RefEntries(d)[j]) <==> j == i)) <==>
            forall j :: 0 <= j < |RefEntries(desired)| && j != i ==> !IsController(RefEntries(desired)[j])
  {
    OwnedByAnotherMeaning(d, other);
    StampSucceeds(d, other);
    StampSucceeds(desired, owner);
    GetAfterSet(desired, OWNER_REFS, Arr(Upsert(ListAt(desired, OWNER_REFS), owner)));
    LookAfterSet(desired, OWNER_REFS, Arr(Upsert(ListAt(desired, OWNER_REFS), owner)), METADATA);
    assert StandsFor(RefEntries(d)[i], other) <==>
           other.gvk.kind == owner.gvk.kind && other.name == owner.name
           && SameGroup(other.gvk.apiVersion, owner.gvk.apiVersion);
  }

  // ----- the decision for one template -----

  datatype Change = Keep | Create(doc: Doc) | Update(doc: Doc) | Patch(patch: Doc) | Delete

  datatype Plan = Fail | Do(change: Change, managed: bool)

  /** The write decision for an enabled template whose object exists. */
  function DecideModify(live: Doc, desired: Doc, t: Template): Plan {
    match Normalize(desired, t.ensured, t.ignored)
    case Failed => Fail
    case Ok(nd) =>
      match Normalize(live, t.ensured, t.ignored)
      case Failed => Fail
      case Ok(nl) =>
        if EqualTyped(nl, nd, t.blanks) then Do(Keep, true)
        else match ReconcileAll(live, nd, t.ensured)
          case Failed => Fail
          case Ok(r) =>
            match t.op
            case UpdateOp => Do(Update(r), true)
            case PatchOp => Do(Patch(Diff(live.members, r.members)), true)
            case UnknownOp => Do(Keep, true)
  }

  function DecideCreate(desired: Doc, owner: Owner): Plan {
    match WithOwner(desired, owner)
    case Failed => Fail
    case Ok(d) => Do(Create(d), true)
  }

  function Decide(live: Option<Doc>, owner: Owner, t: Template): Plan {
    match (t.build(live), live)
    case (Failed, _) => Fail
    case (Ok(desired), None) => if !t.enabled then Do(Keep, false) else DecideCreate(desired, owner)
    case (Ok(desired), Some(l)) => if !t.enabled then Do(Delete, false) else DecideModify(l, desired, t)
  }

  /** What the API server does with a Delete: an object with finalizers is only marked. */
  function Deleted(doc: Doc): Option<Doc> {
    if !HasFinalizers(doc) then None
    else if IsBeingDeleted(doc) then Some(doc)
    else match Set(doc, DELETION, Str("now"))
      case Ok(d) => Some(d)
      case Failed => Some(doc)
  }

  lemma DeletedIsGoneOrMarked(doc: Doc)
    ensures Deleted(doc).Some? <==> Protected(doc)
    ensures Deleted(doc).Some? ==> Marked(Deleted(doc).value) && IsBeingDeleted(Deleted(doc).value)
  {
    GetMetadata(doc, "finalizers");
    if Deleted(doc).Some? { GetMetadata(Deleted(doc).value, "deletionTimestamp"); }
    if HasFinalizers(doc) && !IsBeingDeleted(doc) {
      assert FINALIZERS[..1] == DELETION[..1] && DELETION[..0] == [];
      GetPrefix(doc, FINALIZERS[..1], FINALIZERS);
      SetSucceeds(doc, DELETION, Str("now"));
      GetAfterSet(doc, DELETION, Str("now"));
      LookAfterSet(doc, DELETION, Str("now"), []);
    }
  }

  /** A mark for deletion leaves everything else as it was. */
  lemma MarkKeepsRest(doc: Doc, q: Loc)
    requires Deleted(doc).Some?
    ensures !([Key("metadata"), Key("deletionTimestamp")] <= q) ==> Look(Deleted(doc).value, q) == Look(doc, q)
  {
    if !IsBeingDeleted(doc) {
      assert FINALIZERS[..1] == DELETION[..1] && DELETION[..0] == [];
      GetPrefix(doc, FINALIZERS[..1], FINALIZERS);
      SetSucceeds(doc, DELETION, Str("now"));
      LookAfterSet(doc, DELETION, Str("now"), q);
      if q <= DELETION && q != DELETION { assert q == [] || q == FINALIZERS[..1]; }
    }
  }

  /** The object at a template's key after its change. */
  function After(live: Option<Doc>, change: Change): Option<Doc> {
    match (change, live)
    case (Create(d), _) => Some(d)
    case (Update(d), _) => Some(d)
    case (Patch(p), Some(l)) => Some(Merge(l, p))
    case (Delete, Some(l)) => Deleted(l)
    case _ => live
  }

  type Objects = map<ObjectKey, Doc>

  function Lookup(objects: Objects, k: ObjectKey): Option<Doc> {
    if k in objects then Some(objects[k]) else None
  }

  function Store(objects: Objects, k: ObjectKey, doc: Option<Doc>): (r: Objects)
    ensures Lookup(r, k) == doc
    ensures forall j :: j != k ==> Lookup(r, j) == Lookup(objects, j)
  {
    match doc
    case Some(d) => objects[k := d]
    case None => objects - {k}
  }

  // ----- what one pass leaves -----

  /** What a write leaves of an existing object, in either mode: every key path neither above nor below an
      ensured one is as it was, and every ensured path has the normalised desired value, in Patch mode exactly
      when the patch carries no null. */
  lemma ModifiedObject(live: Doc, owner: Owner, t: Template, nd: Json, change: Change)
    requires t.build(Some(live)).Ok? && Normalize(t.build(Some(live)).value, t.ensured, t.ignored) == Ok(nd)
    requires Decide(Some(live), owner, t) == Do(change, true) && change != Keep
    ensures ReconcileAll(live, nd, t.ensured).Ok?
    ensures var after := After(Some(live), change);
            && after.Some?
            && (AgreeAt(t.ensured, after.value, nd) <==>
                (change.Patch? ==> NullsUnchanged(live, ReconcileAll(live, nd, t.ensured).value)))
            && RestKept(t.ensured, after.value, live)
  {
    LookNormalize(t.build(Some(live)).value, t.ensured, t.ignored);
    WrittenIs(live, t.build(Some(live)).value, t, nd, change);
    WrittenObject(live, nd, t.ensured, ReconcileAll(live, nd, t.ensured).value, change);
  }

  lemma WrittenObject(live: Doc, nd: Json, ensured: seq<Path>, r: Json, change: Change)
    requires nd.Obj? && [] !in ensured && ReconcileAll(live, nd, ensured) == Ok(r)
    requires r.Obj? && (change == Update(r) || change == Patch(Diff(live.members, r.members)))
    ensures var after := After(Some(live), change);
            && after.Some?
            && (AgreeAt(ensured, after.value, nd) <==> (change.Patch? ==> NullsUnchanged(live, r)))
            && RestKept(ensured, after.value, live)
  {
    if change.Patch? {
      StalePatch(live, live, nd, ensured);
      assert After(Some(live), change) == Some(Merge(live, Diff(live.members, r.members)));
    } else {
      UpdatedObject(live, nd, ensured);
      assert After(Some(live), change) == Some(r);
    }
  }

  lemma WrittenIs(live: Doc, desired: Doc, t: Template, nd: Json, change: Change)
    requires Normalize(desired, t.ensured, t.ignored) == Ok(nd)
    requires DecideModify(live, desired, t) == Do(change, true) && change != Keep
    ensures ReconcileAll(live, nd, t.ensured).Ok?
    ensures var r := ReconcileAll(live, nd, t.ensured).value;
            change == Update(r) || change == Patch(Diff(live.members, r.members))
  {
  }

  lemma UpdatedObject(live: Doc, nd: Json, ensured: seq<Path>)
    requires ReconcileAll(live, nd, ensured).Ok?
    ensures var r := ReconcileAll(live, nd, ensured).value;
            AgreeAt(ensured, r, nd) && RestKept(ensured, r, live)
  {
    var r := ReconcileAll(live, nd, ensured).value;
    forall e | e in ensured ensures Get(r, e) == Get(nd, e) { LoopAgrees(live, nd, ensured, e); }
    forall q: Path | forall e :: e in ensured ==> !(e <= q) && !(q <= e) ensures Get(r, q) == Get(live, q) {
      LoopFrame(live, nd, ensured, q);
    }
  }

  lemma CreateStores(owner: Owner, t: Template, desired: Doc)
    requires t.enabled && t.build(None) == Ok(desired)
    ensures Decide(None, owner, t).Do? <==> WithOwner(desired, owner).Ok?
    ensures Decide(None, owner, t).Do? ==>
              After(None, Decide(None, owner, t).change) == Some(WithOwner(desired, owner).value)
  {
  }

  /** The object is as built, but for its owner references, which are stamped. */
  ghost predicate StoredFor(d: Doc, desired: Doc, owner: Owner) {
    IsStamped(d, desired, owner) && exists i :: RefsStamped(RefEntries(d), RefEntries(desired), owner, i)
  }

  lemma StampedIsStoredFor(desired: Doc, owner: Owner)
    ensures WithOwner(desired, owner).Ok? ==> StoredFor(WithOwner(desired, owner).value, desired, owner)
  {
    if WithOwner(desired, owner).Ok? {
      StampedObject(desired, owner);
      var i := StampedRefs(desired, owner);
    }
  }

  /** Metadata and owner references can be written: an object, or missing; a list, null or missing. */
  predicate TakesOwner(doc: Json) {
    && (MemberOf(doc, "metadata") == None || MemberOf(doc, "metadata").value.Obj?)
    && (match MetadataOf(doc, "ownerReferences")
        case Some(x) => x == Null || x == Arr(RefEntries(doc))
        case None => true)
  }

  lemma TakesOwnerMeaning(doc: Doc)
    ensures TakesOwner(doc) <==>
              RefsAreList(doc) && (Get(doc, METADATA).Some? ==> Get(doc, METADATA).value.Obj?)
  {
    GetMember(doc, "metadata");
    GetMetadata(doc, "ownerReferences");
  }

  /** A create succeeds unless another controller owns the built object or its metadata or owner references are
      not of their type, and stores the built object with the owner's reference. */
  lemma CreatedObject(owner: Owner, t: Template, desired: Doc)
    requires t.enabled && t.build(None) == Ok(desired)
    ensures Decide(None, owner, t).Do? <==> !ControlledByAnother(desired, owner) && TakesOwner(desired)
    ensures Decide(None, owner, t).Do? ==>
              var after := After(None, Decide(None, owner, t).change);
              after.Some? && StoredFor(after.value, desired, owner)
  {
    CreateStores(owner, t, desired);
    StampSucceeds(desired, owner);
    OwnedByAnotherMeaning(desired, owner);
    TakesOwnerMeaning(desired);
    StampedIsStoredFor(desired, owner);
  }
}
