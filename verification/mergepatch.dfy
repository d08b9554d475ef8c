/** Update against Patch: the JSON merge patch that client.MergeFrom computes (RFC 7396). */
module MergePatch {
  import opened JsonTree
  import opened Engine

  function MembersOf(t: Json): map<string, Json> {
    if t.Obj? then t.members else map[]
  }

  function Child(t: Json, k: string): Json {
    if t.Obj? && k in t.members then t.members[k] else Null
  }

  /** Applying a patch, section 2 of RFC 7396. A missing target is written Null. */
  function Merge(target: Json, patch: Json): (r: Json)
    ensures patch.Obj? ==> r.Obj?
    decreases patch
  {
    if !patch.Obj? then patch
    else
      var base := MembersOf(target);
      Obj(map k | k in base.Keys + patch.members.Keys && !(k in patch.members && patch.members[k] == Null) ::
            if k in patch.members then Merge(Child(target, k), patch.members[k]) else base[k])
  }

  /** The patch from one object to another: null for a lost member, a nested patch where both sides have
      an object, the new value where they differ, nothing where they agree. */
  function Diff(was: map<string, Json>, now: map<string, Json>): (r: Json)
    ensures r.Obj?
    decreases Obj(now)
  {
    Obj(map k | k in was.Keys + now.Keys && !(k in was && k in now && was[k] == now[k]) ::
          if k !in now then Null
          else if k in was && was[k].Obj? && now[k].Obj? then Diff(was[k].members, now[k].members)
          else now[k])
  }

  // ----- nulls -----

  predicate IsPath(q: Loc) {
    forall s :: s in q ==> s.Key?
  }

  /** No object member is null; arrays travel whole and may hold anything. */
  ghost predicate NullFree(t: Json) {
    forall q: Path :: q != [] ==> Get(t, q) != Some(Null)
  }

  /** The null at key path q of the new object is new. */
  predicate Lost(was: Json, now: Json, q: Loc) {
    IsPath(q) && Get(now, q) == Some(Null) && Get(was, q) != Some(Null)
  }

  /** Every null the new object has at a key path, the old one has there too. */
  ghost predicate NullsUnchanged(was: Json, now: Json) {
    forall q: Loc :: !Lost(was, now, q)
  }

  lemma GetStep(t: Json, k: string, q: Loc)
    ensures Get(t, [Key(k)] + q) == if t.Obj? && k in t.members then Get(t.members[k], q) else None
    ensures IsPath([Key(k)] + q) <==> IsPath(q)
  {
    assert ([Key(k)] + q)[1..] == q;
    if IsPath([Key(k)] + q) {
      forall s | s in q ensures s.Key? { assert s in [Key(k)] + q; }
    }
  }

  lemma LookStep(t: Json, q: Loc)
    requires q != [] && t.Obj?
    ensures q[0].Key? ==> q == [Key(q[0].name)] + q[1..]
    ensures Look(t, q) == if q[0].Key? && q[0].name in t.members then Look(t.members[q[0].name], q[1..]) else None
  {
  }

  /** A member written over something that is no object loses its nulls and nothing else. */
  lemma {:induction false} LookWhole(target: Json, t: Json, q: Loc)
    requires !target.Obj? && t != Null
    ensures Look(Merge(target, t), q) == if IsPath(q) && Get(t, q) == Some(Null) then None else Look(t, q)
    decreases |q|
  {
    if t.Obj? && q != [] {
      LookStep(t, q);
      LookStep(Merge(target, t), q);
      if q[0].Key? && q[0].name in t.members {
        var k := q[0].name;
        GetStep(t, k, q[1..]);
        assert Child(target, k) == Null;
        if t.members[k] != Null { LookWhole(Null, t.members[k], q[1..]); }
      }
    } else if q != [] {
      NoMembers(t, q);
    }
  }

  lemma NoMembers(t: Json, q: Loc)
    requires q != [] && !t.Obj?
    ensures IsPath(q) ==> Get(t, q) == None
  {
    assert q[0] in q;
  }

  /** The whole effect of a patch on the object it was computed from: the new object, without the new nulls. */
  lemma {:induction false} LookPatched(was: Json, now: Json, q: Loc)
    requires was.Obj? && now.Obj?
    ensures Look(Merge(was, Diff(was.members, now.members)), q) == if Lost(was, now, q) then None else Look(now, q)
    decreases |q|
  {
    var r := Merge(was, Diff(was.members, now.members));
    if q != [] {
      LookStep(now, q);
      LookStep(r, q);
      if q[0].Key? {
        var k := q[0].name;
        GetStep(now, k, q[1..]);
        GetStep(was, k, q[1..]);
        PatchedMember(was, now, k);
        if Nested(was, now, k) {
          LookPatched(was.members[k], now.members[k], q[1..]);
        } else if k in now.members && now.members[k] != Null && Child(was, k) != now.members[k] {
          PatchedWhole(was, now, k, q[1..]);
        }
      }
    }
  }

  /** What the patch makes of one member. */
  lemma PatchedMember(was: Json, now: Json, k: string)
    requires was.Obj? && now.Obj?
    ensures var r := Merge(was, Diff(was.members, now.members)).members;
            if k !in now.members then k !in r
            else if k in was.members && was.members[k] == now.members[k] then k in r && r[k] == now.members[k]
            else if Nested(was, now, k) then
              k in r && r[k] == Merge(was.members[k], Diff(was.members[k].members, now.members[k].members))
            else if now.members[k] == Null then k !in r
            else k in r && r[k] == Merge(Child(was, k), now.members[k])
  {
  }

  lemma PatchedWhole(was: Json, now: Json, k: string, q: Loc)
    requires was.Obj? && now.Obj? && k in now.members && now.members[k] != Null
    requires !Nested(was, now, k) && Child(was, k) != now.members[k]
    ensures Look(Merge(Child(was, k), now.members[k]), q) ==
            if Lost(was, now, [Key(k)] + q) then None else Look(now.members[k], q)
  {
    GetStep(now, k, q);
    GetStep(was, k, q);
    var x := now.members[k];
    if x.Obj? {
      LookWhole(Child(was, k), x, q);
      if q != [] && IsPath(q) { NoMembers(Child(was, k), q); }
    } else if q != [] {
      NoMembers(x, q);
    }
  }

  /** Patching the object a patch was computed from gives the new object exactly when the new object has no
      new null at a key path. */
  lemma PatchIsUpdate(was: Json, now: Json)
    requires was.Obj? && now.Obj?
    ensures Merge(was, Diff(was.members, now.members)) == now <==> NullsUnchanged(was, now)
  {
    var r := Merge(was, Diff(was.members, now.members));
    forall q: Loc ensures Look(r, q) == if Lost(was, now, q) then None else Look(now, q) { LookPatched(was, now, q); }
    if NullsUnchanged(was, now) {
      Extensional(r, now);
    } else {
      var q: Loc :| Lost(was, now, q);
      assert Look(r, q) != Look(now, q);
    }
  }

  /** Update and Patch store the same object when the new object has no null members. */
  lemma UpdateAndPatchAgree(was: Json, now: Json)
    requires was.Obj? && now.Obj? && NullFree(now)
    ensures Merge(was, Diff(was.members, now.members)) == now
  {
    PatchIsUpdate(was, now);
  }

  // ----- the property loop and nulls -----

  /** Where the loop puts a new null into the patch: at or below an ensured property, where the desired object
      has a null and the live one has none. */
  lemma LostByLoop(live: Json, desired: Json, ensured: seq<Path>, q: Loc)
    requires ReconcileAll(live, desired, ensured).Ok?
    ensures Lost(live, ReconcileAll(live, desired, ensured).value, q) <==>
            Covered(ensured, q) && Lost(live, desired, q)
  {
    var r := ReconcileAll(live, desired, ensured).value;
    LoopMerges(live, desired, ensured);
    LeafLooks(r, q);
    LeafLooks(live, q);
    LeafLooks(desired, q);
  }

  lemma LeafLooks(t: Json, q: Loc)
    ensures Get(t, q) == Some(Null) <==> Look(t, q) == Some(Leaf(Null))
  {
  }

  /** Writing properties of a null-free desired object never puts a null into the patch. */
  lemma LoopKeepsNullsUnchanged(live: Json, desired: Json, ensured: seq<Path>)
    requires desired.Obj? && NullFree(desired) && ReconcileAll(live, desired, ensured).Ok?
    ensures NullsUnchanged(live, ReconcileAll(live, desired, ensured).value)
  {
    forall q: Loc ensures !Lost(live, ReconcileAll(live, desired, ensured).value, q) {
      LostByLoop(live, desired, ensured, q);
    }
  }

  // ----- a patch that meets a newer server copy -----

  lemma {:induction false} MergeAround(target: Json, t: Json, q: Path)
    requires t.Obj? && q != [] && Get(t, q).None?
    requires forall i :: 0 <= i < |q| && Get(t, q[..i]).Some? ==> Get(t, q[..i]).value.Obj?
    ensures Get(Merge(target, t), q) == Get(target, q)
    decreases |q|
  {
    var k := q[0].name;
    if k in t.members {
      assert Get(t, q[..1]) == Some(t.members[k]) by { assert q[..1][1..] == []; }
      forall i | 0 <= i < |q| - 1 && Get(t.members[k], q[1..][..i]).Some?
        ensures Get(t.members[k], q[1..][..i]).value.Obj?
      {
        assert q[..i + 1][0] == q[0] && q[..i + 1][1..] == q[1..][..i];
        assert Get(t, q[..i + 1]) == Get(t.members[k], q[1..][..i]);
      }
      MergeAround(Child(target, k), t.members[k], q[1..]);
      assert k in Merge(target, t).members;
    }
  }

  /** The object a nested patch applies to. */
  function Below(t: Json, k: string): Json {
    if Child(t, k).Obj? then Child(t, k) else EMPTY
  }

  ghost predicate Nested(was: Json, now: Json, k: string) {
    Child(was, k).Obj? && Child(now, k).Obj? && Child(was, k) != Child(now, k)
  }

  /** A target that is not an object counts as an empty one. */
  lemma MergeOntoEmpty(target: Json, patch: Json)
    requires !target.Obj? && patch.Obj?
    ensures Merge(target, patch) == Merge(EMPTY, patch)
  {
    assert forall k :: Child(EMPTY, k) == Child(target, k);
  }

  /** A member that both sides have as different objects is patched by a nested patch. */
  lemma NestedMember(server: Json, was: Json, now: Json, k: string, q: Path)
    requires server.Obj? && was.Obj? && now.Obj? && Nested(was, now, k)
    ensures Get(Merge(server, Diff(was.members, now.members)), [Key(k)] + q) ==
            Get(Merge(Below(server, k), Diff(was.members[k].members, now.members[k].members)), q)
  {
    var inner := Diff(was.members[k].members, now.members[k].members);
    var patch := Diff(was.members, now.members);
    assert k in patch.members && patch.members[k] == inner;
    CarriedMember(server, patch, k, q);
    if !Child(server, k).Obj? { MergeOntoEmpty(Child(server, k), inner); }
  }

  lemma CarriedMember(target: Json, patch: Json, k: string, q: Path)
    requires patch.Obj? && k in patch.members && patch.members[k] != Null
    ensures Get(Merge(target, patch), [Key(k)] + q) == Get(Merge(Child(target, k), patch.members[k]), q)
  {
    assert ([Key(k)] + q)[1..] == q;
  }

  /** Any other member is copied from the server, removed, or carried as a whole. */
  lemma FlatMember(server: Json, was: Json, now: Json, k: string, q: Path)
    requires server.Obj? && was.Obj? && now.Obj? && !Nested(was, now, k)
    requires k in now.members && now.members[k] == Null ==> k in was.members && was.members[k] == Null
    ensures Get(Merge(server, Diff(was.members, now.members)), [Key(k)] + q) ==
            if (k in was.members <==> k in now.members) && Child(was, k) == Child(now, k) then Get(server, [Key(k)] + q)
            else if k !in now.members then None
            else Get(Merge(Child(server, k), now.members[k]), q)
  {
    var patch := Diff(was.members, now.members);
    if (k in was.members <==> k in now.members) && Child(was, k) == Child(now, k) {
      assert k !in patch.members;
      OmittedMember(server, patch, k, q);
    } else if k !in now.members {
      assert patch.members[k] == Null;
      RemovedMember(server, patch, k, q);
    } else {
      assert patch.members[k] == now.members[k];
      CarriedMember(server, patch, k, q);
    }
  }

  lemma OmittedMember(target: Json, patch: Json, k: string, q: Path)
    requires target.Obj? && patch.Obj? && k !in patch.members
    ensures Get(Merge(target, patch), [Key(k)] + q) == Get(target, [Key(k)] + q)
  {
    assert ([Key(k)] + q)[1..] == q;
  }

  lemma RemovedMember(target: Json, patch: Json, k: string, q: Path)
    requires patch.Obj? && k in patch.members && patch.members[k] == Null
    ensures Get(Merge(target, patch), [Key(k)] + q) == None
  {
  }

  lemma GetMember(t: Json, q: Path)
    requires t.Obj? && q != []
    ensures q == [q[0]] + q[1..]
    ensures Get(t, q) == if q[0].name in t.members then Get(t.members[q[0].name], q[1..]) else None
    ensures Get(t, q[..1]) == if q[0].name in t.members then Some(t.members[q[0].name]) else None
    ensures q[1..] != [] ==> Get(t, q) == Get(Below(t, q[0].name), q[1..])
  {
  }

  /** One step along a path through a patched object. */
  lemma MergeMember(target: Json, patch: Json, q: Path)
    requires patch.Obj? && q != []
    ensures var k := q[0].name;
            Get(Merge(target, patch), q) ==
            if k !in patch.members then Get(target, q)
            else if patch.members[k] == Null then None
            else Get(Merge(Child(target, k), patch.members[k]), q[1..])
  {
  }

  lemma GetChild(t: Json, q: Path)
    requires q != []
    ensures |q| > 1 ==> Get(Child(t, q[0].name), q[1..]) == Get(t, q)
    ensures |q| == 1 ==> Child(t, q[0].name) == (if Get(t, q).Some? then Get(t, q).value else Null)
  {
  }

  /** What a patch leaves at a path depends on the target at that path only. */
  lemma {:induction false} MergeLocal(a: Json, b: Json, patch: Json, q: Path)
    requires patch.Obj? && q != [] && Get(a, q) == Get(b, q)
    ensures Get(Merge(a, patch), q) == Get(Merge(b, patch), q)
    decreases |q|
  {
    var k := q[0].name;
    if k in patch.members && patch.members[k] != Null {
      var p := patch.members[k];
      assert Get(Merge(Child(a, k), p), q[1..]) == Get(Merge(Child(b, k), p), q[1..]) by {
        GetChild(a, q);
        GetChild(b, q);
        if |q| > 1 && p.Obj? { MergeLocal(Child(a, k), Child(b, k), p, q[1..]); }
      }
    }
    MergeMember(a, patch, q);
    MergeMember(b, patch, q);
  }

  /** Parents of q that the author changed are objects afterwards. */
  ghost predicate ObjectsWhereChanged(was: Json, now: Json, q: Path) {
    forall i :: 0 < i < |q| && Get(was, q[..i]) != Get(now, q[..i]) ==>
      Get(now, q[..i]).Some? && Get(now, q[..i]).value.Obj?
  }

  lemma ChangedBelow(was: Json, now: Json, q: Path)
    requires was.Obj? && now.Obj? && |q| > 1 && ObjectsWhereChanged(was, now, q)
    requires Get(was, q[..1]) != Get(now, q[..1])
    ensures var k := q[0].name;
            && k in now.members && now.members[k].Obj?
            && (k in was.members && was.members[k].Obj? ==>
                  ObjectsWhereChanged(was.members[k], now.members[k], q[1..]))
            && (!(k in was.members && was.members[k].Obj?) ==>
                  forall i :: 0 <= i < |q| - 1 && Get(now.members[k], q[1..][..i]).Some? ==>
                    Get(now.members[k], q[1..][..i]).value.Obj?)
  {
    var k := q[0].name;
    assert q[..1] == [q[0]] && q[..1][1..] == [];
    assert Get(now, q[..1]).Some? && Get(now, q[..1]).value.Obj?;
    forall i | 0 <= i < |q| - 1
      ensures Get(now, q[..i + 1]) == Get(now.members[k], q[1..][..i])
      ensures k in was.members ==> Get(was, q[..i + 1]) == Get(was.members[k], q[1..][..i])
      ensures k !in was.members ==> Get(was, q[..i + 1]).None?
    {
      assert q[..i + 1][0] == q[0] && q[..i + 1][1..] == q[1..][..i];
    }
    if k in was.members && was.members[k].Obj? {
      forall i | 0 < i < |q| - 1 && Get(was.members[k], q[1..][..i]) != Get(now.members[k], q[1..][..i])
        ensures Get(now.members[k], q[1..][..i]).Some? && Get(now.members[k], q[1..][..i]).value.Obj?
      {
        assert Get(now, q[..i + 1]) != Get(was, q[..i + 1]);
      }
    } else {
      forall i | 0 <= i < |q| - 1 && Get(now.members[k], q[1..][..i]).Some?
        ensures Get(now.members[k], q[1..][..i]).value.Obj?
      {
        if i > 0 {
          assert k in was.members ==> Get(was.members[k], q[1..][..i]).None?;
          assert Get(now, q[..i + 1]) != Get(was, q[..i + 1]);
        }
      }
    }
  }

  /** A path the author left alone, whose parents stayed objects, keeps what the server has by now. */
  lemma {:induction false} PatchSpares(server: Json, was: Json, now: Json, q: Path)
    requires server.Obj? && was.Obj? && now.Obj? && q != []
    requires Get(was, q) == Get(now, q) && ObjectsWhereChanged(was, now, q)
    ensures Get(Merge(server, Diff(was.members, now.members)), q) == Get(server, q)
    decreases |q|
  {
    var k := q[0].name;
    GetMember(server, q);
    GetMember(was, q);
    GetMember(now, q);
    if |q| == 1 {
      assert q[..1] == q;
      FlatMember(server, was, now, k, []);
    } else if Get(was, q[..1]) == Get(now, q[..1]) {
      FlatMember(server, was, now, k, q[1..]);
    } else {
      ChangedBelow(was, now, q);
      if Nested(was, now, k) {
        NestedMember(server, was, now, k, q[1..]);
        PatchSpares(Below(server, k), was.members[k], now.members[k], q[1..]);
      } else {
        FlatMember(server, was, now, k, q[1..]);
        MergeAround(Child(server, k), now.members[k], q[1..]);
        assert Get(Child(server, k), q[1..]) == Get(server, q);
      }
    }
  }

  lemma AboveLower(t: Json, ensured: seq<Path>, p: Loc, s: Loc)
    requires p <= s
    ensures Above(t, ensured, s) ==> Above(t, ensured, p)
  {
  }

  /** Below an uncovered location that no present ensured path extends, the loop changes nothing. */
  lemma UntouchedBelow(live: Json, desired: Json, ensured: seq<Path>, p: Loc, s: Loc)
    requires ReconcileAll(live, desired, ensured).Ok? && p <= s
    requires !Covered(ensured, p) && !Above(live, ensured, p) && !Above(desired, ensured, p)
    ensures Look(ReconcileAll(live, desired, ensured).value, s) == Look(live, s)
  {
    LoopMerges(live, desired, ensured);
    AboveLower(desired, ensured, p, s);
    if Covered(ensured, s) {
      var e :| e in ensured && e <= s;
      assert Get(live, e).None? && Get(desired, e).None?;
      if Get(live, s).Some? { GetPrefix(live, e, s); }
      if Get(desired, s).Some? { GetPrefix(desired, e, s); }
    }
  }

  /** The parents of an unmanaged path either keep their value in the loop or are objects after it. */
  lemma ParentsStayObjects(live: Json, desired: Json, ensured: seq<Path>, p: Loc)
    requires ReconcileAll(live, desired, ensured).Ok?
    requires !Covered(ensured, p)
    ensures var r := ReconcileAll(live, desired, ensured).value;
            Get(live, p) != Get(r, p) ==> Get(r, p).Some? && Get(r, p).value.Obj?
  {
    var r := ReconcileAll(live, desired, ensured).value;
    if Above(desired, ensured, p) {
      LoopMerges(live, desired, ensured);
      assert Look(r, p) == Some(ObjectNode);
    } else if Above(live, ensured, p) {
      LoopMerges(live, desired, ensured);
      var e :| e in ensured && p < e && Get(live, e).Some?;
      GetPrefix(live, p, e);
      assert Look(r, p) == Some(ObjectNode);
    } else {
      forall s: Loc | p <= s ensures Look(r, s) == Look(live, s) { UntouchedBelow(live, desired, ensured, p, s); }
      SameGetLooks(live, r, p);
    }
  }

  lemma ParentsChangeToObjects(live: Json, desired: Json, ensured: seq<Path>, q: Path)
    requires ReconcileAll(live, desired, ensured).Ok? && !Covered(ensured, q)
    ensures ObjectsWhereChanged(live, ReconcileAll(live, desired, ensured).value, q)
  {
    var r := ReconcileAll(live, desired, ensured).value;
    forall i | 0 < i < |q| && Get(live, q[..i]) != Get(r, q[..i])
      ensures Get(r, q[..i]).Some? && Get(r, q[..i]).value.Obj?
    {
      CoveredAbove(ensured, q[..i], q);
      ParentsStayObjects(live, desired, ensured, q[..i]);
    }
  }

  lemma FreshPatch(live: Json, desired: Json, ensured: seq<Path>)
    requires live.Obj? && desired.Obj? && ReconcileAll(live, desired, ensured).Ok?
    ensures var r := ReconcileAll(live, desired, ensured).value;
            AgreeAt(ensured, Merge(live, Diff(live.members, r.members)), desired) <==> NullsUnchanged(live, r)
  {
    var r := ReconcileAll(live, desired, ensured).value;
    forall e | e in ensured ensures Get(r, e) == Get(desired, e) { LoopAgrees(live, desired, ensured, e); }
    PatchIsUpdate(live, r);
    if !NullsUnchanged(live, r) {
      var q: Loc :| Lost(live, r, q);
      LostByLoop(live, desired, ensured, q);
      LookPatched(live, r, q);
      CoveredDiffers(Merge(live, Diff(live.members, r.members)), r, ensured, q);
    }
  }

  /** Two trees that differ at a covered location differ at an ensured one. */
  lemma CoveredDiffers(a: Json, b: Json, ensured: seq<Path>, q: Loc)
    requires Covered(ensured, q) && Get(a, q) != Get(b, q)
    ensures exists e :: e in ensured && Get(a, e) != Get(b, e)
  {
    var e :| e in ensured && e <= q;
    assert q == e + q[|e|..];
    GetConcat(a, e, q[|e|..]);
    GetConcat(b, e, q[|e|..]);
  }

  /** A patch computed from a stale read, when the server still has what was read at every ensured path:
      every ensured path gets the normalised desired value exactly when every null of the written object is in
      an unchanged part, and every key path neither above nor below an ensured one keeps in any case
      whatever the server has by now. */
  lemma StalePatch(server: Json, live: Json, desired: Json, ensured: seq<Path>)
    requires server.Obj? && live.Obj? && desired.Obj? && [] !in ensured
    requires ReconcileAll(live, desired, ensured).Ok?
    requires AgreeAt(ensured, server, live)
    ensures var r := ReconcileAll(live, desired, ensured).value;
            r.Obj? &&
            var patched := Merge(server, Diff(live.members, r.members));
            && (AgreeAt(ensured, patched, desired) <==> NullsUnchanged(live, r))
            && RestKept(ensured, patched, server)
  {
    var r := ReconcileAll(live, desired, ensured).value;
    var patch := Diff(live.members, r.members);
    FreshPatch(live, desired, ensured);
    forall e | e in ensured ensures Get(Merge(server, patch), e) == Get(Merge(live, patch), e) {
      MergeLocal(server, live, patch, e);
    }
    forall q: Path | q != [] && forall e :: e in ensured ==> !(e <= q) && !(q <= e)
      ensures Get(Merge(server, patch), q) == Get(server, q)
    {
      LoopFrame(live, desired, ensured, q);
      ParentsChangeToObjects(live, desired, ensured, q);
      PatchSpares(server, live, r, q);
    }
  }
}
